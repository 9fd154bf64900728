/** Column-name handling shared by both CSV inputs: whitespace stripping as Python's
    `str.strip()` does it, the first-match alias search, and the missing-column list. */
module Columns {
  import opened Wrappers
  import opened Seqs

  /** The characters Python's `str.strip()` removes when called without arguments, those
      for which `str.isspace()` holds: tab to carriage return, the four information
      separators, space, next line, no-break space, and the Unicode space separators,
      line and paragraph separators. */
  predicate IsSpace(c: char) {
    var n := c as int;
    (0x09 <= n <= 0x0D) || (0x1C <= n <= 0x20) || n == 0x85 || n == 0xA0 || n == 0x1680
    || (0x2000 <= n <= 0x200A) || n == 0x2028 || n == 0x2029 || n == 0x202F || n == 0x205F
    || n == 0x3000
  }

  /** Neither starts nor ends with whitespace. */
  predicate Unpadded(s: string) {
    s == [] || (!IsSpace(s[0]) && !IsSpace(s[|s| - 1]))
  }

  /** `s` without its leading whitespace. */
  function TrimStart(s: string): (r: string)
    ensures |r| <= |s| && r == s[|s| - |r|..]
    ensures forall k :: 0 <= k < |s| - |r| ==> IsSpace(s[k])
    ensures r != [] ==> !IsSpace(r[0])
  {
    if s != [] && IsSpace(s[0]) then
      var r := TrimStart(s[1..]);
      assert forall k :: 1 <= k < |s| ==> s[k] == s[1..][k - 1];
      r
    else s
  }

  /** `s` without its trailing whitespace. */
  function TrimEnd(s: string): (r: string)
    ensures |r| <= |s| && r == s[..|r|]
    ensures forall k :: |r| <= k < |s| ==> IsSpace(s[k])
    ensures r != [] ==> !IsSpace(r[|r| - 1])
  {
    if s != [] && IsSpace(s[|s| - 1]) then
      var r := TrimEnd(s[..|s| - 1]);
      r
    else s
  }

  /** Python's `s.strip()`: `s` without its leading and trailing whitespace. */
  function Strip(s: string): (r: string)
    ensures Unpadded(r)
  {
    TrimEnd(TrimStart(s))
  }

  /** Stripping keeps a middle part of `s` and cuts away only whitespace on either side. */
  lemma StripCutsWhitespace(s: string)
    ensures exists i, j :: 0 <= i <= j <= |s| && Strip(s) == s[i..j]
                           && (forall k :: 0 <= k < i ==> IsSpace(s[k]))
                           && (forall k :: j <= k < |s| ==> IsSpace(s[k]))
  {
    var t := TrimStart(s);
    StripCuts(s, t, TrimEnd(t));
  }

  lemma StripCuts(s: string, t: string, r: string)
    requires |t| <= |s| && t == s[|s| - |t|..]
    requires forall k :: 0 <= k < |s| - |t| ==> IsSpace(s[k])
    requires |r| <= |t| && r == t[..|r|]
    requires forall k :: |r| <= k < |t| ==> IsSpace(t[k])
    ensures exists i, j :: 0 <= i <= j <= |s| && r == s[i..j]
                           && (forall k :: 0 <= k < i ==> IsSpace(s[k]))
                           && (forall k :: j <= k < |s| ==> IsSpace(s[k]))
  {
    var i := |s| - |t|;
    var j := i + |r|;
    assert r == s[i..j];
    forall k | j <= k < |s| ensures IsSpace(s[k]) {
      assert s[k] == t[k - i];
    }
  }

  /** Leading whitespace in front of a part that starts with a non-space is all that
      `TrimStart` removes. */
  lemma {:induction false} TrimStartPadded(pre: string, t: string)
    requires forall k :: 0 <= k < |pre| ==> IsSpace(pre[k])
    requires t == [] || !IsSpace(t[0])
    ensures TrimStart(pre + t) == t
  {
    if pre != [] {
      assert (pre + t)[1..] == pre[1..] + t;
      TrimStartPadded(pre[1..], t);
    } else {
      assert pre + t == t;
    }
  }

  /** Trailing whitespace after a part that ends with a non-space is all that `TrimEnd`
      removes. */
  lemma {:induction false} TrimEndPadded(t: string, post: string)
    requires forall k :: 0 <= k < |post| ==> IsSpace(post[k])
    requires t == [] || !IsSpace(t[|t| - 1])
    ensures TrimEnd(t + post) == t
  {
    if post != [] {
      assert (t + post)[..|t + post| - 1] == t + post[..|post| - 1];
      TrimEndPadded(t, post[..|post| - 1]);
    } else {
      assert t + post == t;
    }
  }

  /** Whatever surrounding whitespace a name carries, stripping recovers the bare name:
      `" date "` is matched as `"date"`. */
  lemma StripPadded(pre: string, name: string, post: string)
    requires forall k :: 0 <= k < |pre| ==> IsSpace(pre[k])
    requires forall k :: 0 <= k < |post| ==> IsSpace(post[k])
    requires Unpadded(name)
    ensures Strip(pre + name + post) == name
  {
    if name == [] {
      var s := pre + post;
      assert pre + name + post == s;
      assert forall k :: 0 <= k < |s| ==> IsSpace(s[k]) by {
        forall k | 0 <= k < |s| ensures IsSpace(s[k]) {
          if k >= |pre| { assert s[k] == post[k - |pre|]; }
        }
      }
      TrimStartPadded(s, []);
      assert s + [] == s;
    } else {
      assert pre + name + post == pre + (name + post);
      TrimStartPadded(pre, name + post);
      TrimEndPadded(name, post);
    }
  }

  /** Stripping twice is stripping once. */
  lemma StripIdempotent(s: string)
    ensures Strip(Strip(s)) == Strip(s)
  {
    StripPadded([], Strip(s), []);
    assert [] + Strip(s) + [] == Strip(s);
  }

  /** `[c.strip() for c in columns]`. */
  function TrimColumns(columns: seq<string>): (r: seq<string>)
    ensures |r| == |columns|
    ensures forall i :: 0 <= i < |r| ==> r[i] == Strip(columns[i])
  {
    seq(|columns|, i requires 0 <= i < |columns| => Strip(columns[i]))
  }

  /** Stripping a header yields `names` when it yields them name by name. */
  lemma TrimColumnsAre(columns: seq<string>, names: seq<string>)
    requires |columns| == |names|
    requires forall k :: 0 <= k < |columns| ==> Strip(columns[k]) == names[k]
    ensures TrimColumns(columns) == names
  {
  }

  /** Position of the first column called `name`. */
  function IndexOf(columns: seq<string>, name: string): (r: nat)
    requires name in columns
    ensures r < |columns| && columns[r] == name
    ensures forall j :: 0 <= j < r ==> columns[j] != name
  {
    if columns[0] == name then 0 else 1 + IndexOf(columns[1..], name)
  }

  /** `next((c for c in candidates if c in columns), None)`: the earliest candidate that is
      a column name, or nothing when no candidate is. */
  function FirstPresent(candidates: seq<string>, columns: seq<string>): (r: Option<string>)
    ensures r.None? <==> forall i :: 0 <= i < |candidates| ==> candidates[i] !in columns
    ensures r.Some? ==> exists i :: 0 <= i < |candidates| && candidates[i] == r.value
                                    && r.value in columns
                                    && forall j :: 0 <= j < i ==> candidates[j] !in columns
  {
    if candidates == [] then None
    else if candidates[0] in columns then Some(candidates[0])
    else
      var r := FirstPresent(candidates[1..], columns);
      assert forall i :: 1 <= i < |candidates| ==> candidates[i] == candidates[1..][i - 1];
      if r.Some? then
        var i :| 0 <= i < |candidates[1..]| && candidates[1..][i] == r.value
                 && forall j :: 0 <= j < i ==> candidates[1..][j] !in columns;
        assert candidates[i + 1] == r.value;
        r
      else r
  }

  /** `[c for c in wanted if c not in columns]`. */
  function Missing(wanted: seq<string>, columns: seq<string>): (r: seq<string>)
  {
    Filter(wanted, c => c !in columns)
  }

  /** The missing list names exactly the wanted names that are not columns, in the order
      they were wanted, and it is empty exactly when every wanted name is a column. */
  lemma MissingExactly(wanted: seq<string>, columns: seq<string>)
    ensures forall c :: c in Missing(wanted, columns) <==> c in wanted && c !in columns
    ensures IsSubsequence(Missing(wanted, columns), wanted)
    ensures Missing(wanted, columns) == [] <==> forall c :: c in wanted ==> c in columns
  {
    var m := Missing(wanted, columns);
    forall c | c in wanted && c !in columns ensures c in m {
      var i :| 0 <= i < |wanted| && wanted[i] == c;
    }
    if m != [] {
      assert m[0] in m;
    }
  }

  /** `required.issubset(set(columns))`. */
  predicate HasAll(required: set<string>, columns: seq<string>)
  {
    required <= (set c | c in columns)
  }

  /** The subset check fails exactly when the list of missing names is not empty. */
  lemma HasAllIffNoneMissing(required: seq<string>, columns: seq<string>)
    ensures HasAll((set c | c in required), columns) <==> Missing(required, columns) == []
  {
    MissingExactly(required, columns);
    var want := set c | c in required;
    var have := set c | c in columns;
    if want <= have {
      forall c | c in required ensures c in columns {
        assert c in want;
        assert c in have;
      }
    } else {
      var c :| c in want && c !in have;
      assert c in required && c !in columns;
    }
  }
}
