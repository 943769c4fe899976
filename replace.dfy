/**
 * Literal, global byte-string replacement: Go's `bytes.Replace(s, old, new, -1)` for a
 * non-empty `old`. Occurrences are found left to right and never overlap: once one is
 * replaced, the search resumes just after it.
 */
module Replace {

  import opened Wrappers

  newtype byte = b: int | 0 <= b < 256

  /** A search pattern; the empty pattern is not part of this model. */
  type Pattern = s: seq<byte> | |s| > 0 witness [0]

  /** `f` occurs in `s` starting at index `j`. */
  predicate MatchAt(s: seq<byte>, f: seq<byte>, j: int) {
    0 <= j && j + |f| <= |s| && s[j..j + |f|] == f
  }

  /** The first place at or after `start` where `f` occurs in `s`, if there is one. */
  function IndexFrom(s: seq<byte>, f: seq<byte>, start: nat): (r: Option<nat>)
    requires |f| > 0
    ensures r.Some? ==> start <= r.value && r.value + |f| <= |s|
    decreases |s| - start
  {
    if start + |f| > |s| then None
    else if MatchAt(s, f, start) then Some(start)
    else IndexFrom(s, f, start + 1)
  }

  /** Go's `bytes.Index`: the first place where `f` occurs in `s`, if it occurs at all. */
  function IndexOf(s: seq<byte>, f: seq<byte>): (r: Option<nat>)
    requires |f| > 0
    ensures r.Some? ==> MatchAt(s, f, r.value)
    ensures r.Some? ==> forall j :: 0 <= j < r.value ==> !MatchAt(s, f, j)
    ensures r.None? ==> forall j :: !MatchAt(s, f, j)
  {
    IndexFromFindsFirst(s, f, 0);
    IndexFrom(s, f, 0)
  }

  /** The search finds an occurrence with none before it, and reports none only when there is none. */
  lemma {:induction false} IndexFromFindsFirst(s: seq<byte>, f: seq<byte>, start: nat)
    requires |f| > 0
    ensures IndexFrom(s, f, start).Some? ==> MatchAt(s, f, IndexFrom(s, f, start).value)
    ensures IndexFrom(s, f, start).Some? ==>
      forall j :: start <= j < IndexFrom(s, f, start).value ==> !MatchAt(s, f, j)
    ensures IndexFrom(s, f, start).None? ==> forall j :: start <= j ==> !MatchAt(s, f, j)
    decreases |s| - start
  {
    if start + |f| <= |s| && !MatchAt(s, f, start) {
      IndexFromFindsFirst(s, f, start + 1);
    }
  }

  /**
   * The rewrite of `s[start..]`: occurrences taken left to right, without overlap. A
   * replacement no longer than the pattern never lengthens the text, and one no shorter
   * never shortens it.
   */
  function ReplaceFrom(s: seq<byte>, f: seq<byte>, t: seq<byte>, start: nat): (r: seq<byte>)
    requires |f| > 0 && start <= |s|
    ensures |t| <= |f| ==> |r| <= |s| - start
    ensures |t| >= |f| ==> |r| >= |s| - start
    decreases |s| - start
  {
    if start + |f| > |s| then s[start..]
    else if MatchAt(s, f, start) then t + ReplaceFrom(s, f, t, start + |f|)
    else [s[start]] + ReplaceFrom(s, f, t, start + 1)
  }

  /**
   * Every occurrence of `f` in `s`, taken left to right without overlap, replaced by `t`.
   * A body without an occurrence comes back as it is.
   */
  function ReplaceAll(s: seq<byte>, f: seq<byte>, t: seq<byte>): (r: seq<byte>)
    requires |f| > 0
    ensures IndexOf(s, f).None? ==> r == s
    ensures |t| <= |f| ==> |r| <= |s|
    ensures |t| >= |f| ==> |r| >= |s|
  {
    assert IndexFrom(s, f, 0).None? ==> ReplaceFrom(s, f, t, 0) == s by {
      if IndexFrom(s, f, 0).None? {
        ReplaceFromNoMatch(s, f, t, 0);
        assert s[0..] == s;
      }
    }
    ReplaceFrom(s, f, t, 0)
  }

  /** Regrouping a concatenation that starts with one byte (sequence concatenation is associative). */
  lemma ConsAppend(a: byte, b: seq<byte>, c: seq<byte>, d: seq<byte>)
    ensures [a] + (b + c + d) == ([a] + b) + c + d
  {
  }

  /** Where the pattern does not occur from `start` on, the rest of the body is copied as it is. */
  lemma {:induction false} ReplaceFromNoMatch(s: seq<byte>, f: seq<byte>, t: seq<byte>, start: nat)
    requires |f| > 0 && start <= |s| && IndexFrom(s, f, start).None?
    ensures ReplaceFrom(s, f, t, start) == s[start..]
    decreases |s| - start
  {
    if start + |f| <= |s| {
      ReplaceFromNoMatch(s, f, t, start + 1);
      assert [s[start]] + s[start + 1..] == s[start..];
    }
  }

  /**
   * Where the next occurrence is at `i`, the bytes before it are copied, the replacement
   * is emitted, and the rewrite carries on after the occurrence.
   */
  lemma {:induction false} ReplaceFromAtMatch(s: seq<byte>, f: seq<byte>, t: seq<byte>, start: nat, i: nat)
    requires |f| > 0 && start <= |s| && IndexFrom(s, f, start) == Some(i)
    ensures ReplaceFrom(s, f, t, start) == s[start..i] + t + ReplaceFrom(s, f, t, i + |f|)
    decreases |s| - start
  {
    if MatchAt(s, f, start) {
      assert s[start..i] == [];
    } else {
      ReplaceFromAtMatch(s, f, t, start + 1, i);
      var rest := ReplaceFrom(s, f, t, i + |f|);
      calc {
        ReplaceFrom(s, f, t, start);
        [s[start]] + ReplaceFrom(s, f, t, start + 1);
        [s[start]] + (s[start + 1..i] + t + rest);
        { ConsAppend(s[start], s[start + 1..i], t, rest); }
        ([s[start]] + s[start + 1..i]) + t + rest;
        { assert [s[start]] + s[start + 1..i] == s[start..i]; }
        s[start..i] + t + rest;
      }
    }
  }

  /**
   * The search-and-copy reading of `bytes.Replace`: find the first occurrence; keep what
   * precedes it, emit the replacement, and carry on after the occurrence. With no
   * occurrence the input comes back as it is.
   */
  lemma ReplaceAllAtFirstMatch(s: seq<byte>, f: seq<byte>, t: seq<byte>)
    requires |f| > 0
    ensures IndexOf(s, f).None? ==> ReplaceAll(s, f, t) == s
    ensures IndexOf(s, f).Some? ==>
      var i := IndexOf(s, f).value;
      ReplaceAll(s, f, t) == s[..i] + t + ReplaceFrom(s, f, t, i + |f|)
  {
    match IndexOf(s, f)
    case None =>
      ReplaceFromNoMatch(s, f, t, 0);
      assert s[0..] == s;
    case Some(i) =>
      ReplaceFromAtMatch(s, f, t, 0, i);
      assert s[0..i] == s[..i];
  }

  /** A body in which a non-empty pattern does not occur comes back unchanged. */
  lemma NoMatchUnchanged(s: seq<byte>, f: seq<byte>, t: seq<byte>)
    requires |f| > 0
    requires forall j :: !MatchAt(s, f, j)
    ensures ReplaceAll(s, f, t) == s
  {
  }

  /** Replacing a pattern by itself changes nothing. */
  lemma {:induction false} ReplaceBySelf(s: seq<byte>, f: seq<byte>, start: nat)
    requires |f| > 0 && start <= |s|
    ensures ReplaceFrom(s, f, f, start) == s[start..]
    decreases |s| - start
  {
    if start + |f| > |s| {
    } else if MatchAt(s, f, start) {
      ReplaceBySelf(s, f, start + |f|);
      assert s[start..start + |f|] + s[start + |f|..] == s[start..];
    } else {
      ReplaceBySelf(s, f, start + 1);
      assert [s[start]] + s[start + 1..] == s[start..];
    }
  }

  /**
   * A replacement as long as the pattern keeps the length of the body: together, the two
   * length bounds of `ReplaceAll`.
   */
  lemma SameLengthPreserved(s: seq<byte>, f: seq<byte>, t: seq<byte>)
    requires |f| > 0 && |t| == |f|
    ensures |ReplaceAll(s, f, t)| == |s|
  {
  }

  /** Replacing "from" by "to" in "fromsomething" gives "tosomething" (ASCII bytes). */
  lemma FromSomething()
    ensures ReplaceAll(
              [102, 114, 111, 109, 115, 111, 109, 101, 116, 104, 105, 110, 103],  // "fromsomething"
              [102, 114, 111, 109],                                               // "from"
              [116, 111])                                                         // "to"
            == [116, 111, 115, 111, 109, 101, 116, 104, 105, 110, 103]            // "tosomething"
  {
    var s: seq<byte> := [102, 114, 111, 109, 115, 111, 109, 101, 116, 104, 105, 110, 103];
    var f: seq<byte> := [102, 114, 111, 109];
    assert MatchAt(s, f, 0);
    forall j | 4 <= j ensures !MatchAt(s, f, j) {
      if j + |f| <= |s| {
        assert s[j..j + |f|][0] == s[j] != 102;
      }
    }
    IndexFromFindsFirst(s, f, 4);
    ReplaceFromNoMatch(s, f, [116, 111], 4);
  }
}
