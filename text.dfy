/** Optional values, as Python's `None` or a value. */
module Wrappers {
  datatype Option<+T> = None | Some(value: T)

  datatype Result<+T, +E> = Success(value: T) | Failure(error: E)
}

/**
 Literal substring search, splitting, joining and replacement on strings,
 with the semantics of Python's `in`, `str.find`, `str.split`, `str.join`
 and `str.replace`.
 */
module Text {
  import opened Wrappers

  /** `pat` occurs in `s` starting at index `i`. */
  predicate OccursAt(s: string, pat: string, i: int) {
    0 <= i && i + |pat| <= |s| && s[i..i + |pat|] == pat
  }

  /** Python's `pat in s`: the empty string is in every text, and no text
      holds a longer one. */
  predicate Contains(s: string, pat: string)
    ensures pat == [] ==> Contains(s, pat)
    ensures Contains(s, pat) ==> |pat| <= |s|
  {
    assert pat == [] ==> OccursAt(s, pat, 0);
    exists i | 0 <= i <= |s| - |pat| :: OccursAt(s, pat, i)
  }

  /** An occurrence in the tail of a text is an occurrence in the text. */
  lemma ContainsTail(s: string, pat: string)
    requires |s| > 0 && Contains(s[1..], pat)
    ensures Contains(s, pat)
  {
    var j :| 0 <= j <= |s[1..]| - |pat| && OccursAt(s[1..], pat, j);
    OccursShift(s, pat);
    assert OccursAt(s, pat, j + 1);
  }

  /** Python's `s.replace(pat, rep)` for a non-empty `pat`: one scan from the
      left; every match is replaced and scanning resumes after it, so matches
      never overlap and text produced by `rep` is never rescanned. Text
      without a match, and a replacement of `pat` by itself, leave `s` as
      it is. */
  function ReplaceAll(s: string, pat: string, rep: string): (r: string)
    requires pat != []
    ensures !Contains(s, pat) ==> r == s
    ensures rep == pat ==> r == s
    decreases |s|
  {
    if |s| < |pat| then s
    else if s[..|pat|] == pat then
      assert OccursAt(s, pat, 0) by {
        assert s[0..|pat|] == s[..|pat|];
      }
      assert s == pat + s[|pat|..];
      rep + ReplaceAll(s[|pat|..], pat, rep)
    else
      assert Contains(s[1..], pat) ==> Contains(s, pat) by {
        if Contains(s[1..], pat) {
          ContainsTail(s, pat);
        }
      }
      assert s == [s[0]] + s[1..];
      [s[0]] + ReplaceAll(s[1..], pat, rep)
  }

  /** The index of the leftmost occurrence of `pat` in `s`, as `s.find(pat)`. */
  function Find(s: string, pat: string): (r: Option<nat>)
    ensures r.Some? ==> OccursAt(s, pat, r.value)
    ensures r.Some? ==> forall j :: 0 <= j < r.value ==> !OccursAt(s, pat, j)
    ensures r.None? ==> forall j :: !OccursAt(s, pat, j)
    decreases |s|
  {
    if |s| < |pat| then None
    else if s[..|pat|] == pat then Some(0)
    else
      OccursShift(s, pat);
      match Find(s[1..], pat)
      case None => None
      case Some(i) => Some(i + 1)
  }

  /** Occurrences in `s[1..]` are the occurrences in `s` after index 0. */
  lemma OccursShift(s: string, pat: string)
    requires |s| > 0
    ensures forall j :: j >= 1 ==> (OccursAt(s, pat, j) <==> OccursAt(s[1..], pat, j - 1))
  {
    forall j | j >= 1
      ensures OccursAt(s, pat, j) <==> OccursAt(s[1..], pat, j - 1)
    {
      if j + |pat| <= |s| {
        assert s[1..][j - 1..j - 1 + |pat|] == s[j..j + |pat|];
      }
    }
  }

  /** Python's `s.split(pat)` for a non-empty `pat`: the pieces between the
      leftmost non-overlapping occurrences of `pat`; the text comes back as
      its only piece exactly when `pat` does not occur in it. */
  function Split(s: string, pat: string): (parts: seq<string>)
    requires pat != []
    ensures |parts| >= 1
    ensures parts == [s] <==> !Contains(s, pat)
    decreases |s|
  {
    ContainsFind(s, pat);
    match Find(s, pat)
    case None => [s]
    case Some(i) => [s[..i]] + Split(s[i + |pat|..], pat)
  }

  /** Python's `sep.join(parts)`: the result starts with the first piece and
      ends with the last. */
  function JoinWith(parts: seq<string>, sep: string): (r: string)
    ensures |parts| >= 1 ==> parts[0] <= r
    ensures |parts| >= 1 ==> var last := parts[|parts| - 1];
      |last| <= |r| && r[|r| - |last|..] == last
    decreases |parts|
  {
    if |parts| == 0 then ""
    else if |parts| == 1 then parts[0]
    else
      var rest := JoinWith(parts[1..], sep);
      assert parts[1..][|parts| - 2] == parts[|parts| - 1];
      assert (parts[0] + sep + rest)[|parts[0] + sep|..] == rest;
      parts[0] + sep + rest
  }

  lemma ContainsFind(s: string, pat: string)
    ensures Contains(s, pat) <==> Find(s, pat).Some?
  {
    if Find(s, pat).Some? {
      assert OccursAt(s, pat, Find(s, pat).value);
    }
  }

  /** Joining the pieces of a split with the separator gives back the text. */
  lemma {:induction false} SplitJoin(s: string, pat: string)
    requires pat != []
    ensures JoinWith(Split(s, pat), pat) == s
    decreases |s|
  {
    match Find(s, pat)
    case None =>
    case Some(i) =>
      var rest := s[i + |pat|..];
      SplitJoin(rest, pat);
      JoinCons(s[..i], Split(rest, pat), pat);
      AroundOccurrence(s, pat, i);
  }

  /** Text is what comes before an occurrence, the occurrence, and what follows. */
  lemma AroundOccurrence(s: string, pat: string, i: int)
    requires OccursAt(s, pat, i)
    ensures s == s[..i] + pat + s[i + |pat|..]
  {
    assert s == s[..i] + s[i..i + |pat|] + s[i + |pat|..];
  }

  lemma JoinCons(p: string, parts: seq<string>, sep: string)
    requires |parts| >= 1
    ensures JoinWith([p] + parts, sep) == p + sep + JoinWith(parts, sep)
  {
    assert ([p] + parts)[1..] == parts;
  }

  /** No occurrence of `pat` starts inside `piece` when `pat` follows it:
      the separator after the piece is the leftmost match from its start. */
  predicate CleanPiece(piece: string, pat: string) {
    forall j :: 0 <= j < |piece| ==> !OccursAt(piece + pat, pat, j)
  }

  /** The pieces of a split are the leftmost decomposition: every piece but
      the last is clean, and the last piece holds no occurrence. */
  lemma SplitLeftmost(s: string, pat: string)
    requires pat != []
    ensures var parts := Split(s, pat);
      forall k :: 0 <= k < |parts| - 1 ==> CleanPiece(parts[k], pat)
    ensures !Contains(Split(s, pat)[|Split(s, pat)| - 1], pat)
  {
    SplitPiecesClean(s, pat);
    SplitLastClean(s, pat);
  }

  lemma {:induction false} SplitPiecesClean(s: string, pat: string)
    requires pat != []
    ensures var parts := Split(s, pat);
      forall k :: 0 <= k < |parts| - 1 ==> CleanPiece(parts[k], pat)
    decreases |s|
  {
    match Find(s, pat)
    case None =>
    case Some(i) =>
      var rest := s[i + |pat|..];
      SplitPiecesClean(rest, pat);
      SplitAt(s, pat, i);
      FirstPieceClean(s, pat, i);
      CleanInFront(s[..i], Split(rest, pat), pat);
  }

  /** A clean piece in front of pieces that are clean but for the last. */
  lemma CleanInFront(p: string, tail: seq<string>, pat: string)
    requires CleanPiece(p, pat)
    requires forall k :: 0 <= k < |tail| - 1 ==> CleanPiece(tail[k], pat)
    ensures var parts := [p] + tail;
      forall k :: 0 <= k < |parts| - 1 ==> CleanPiece(parts[k], pat)
  {
    var parts := [p] + tail;
    forall k | 1 <= k < |parts| - 1 ensures CleanPiece(parts[k], pat) {
      assert parts[k] == tail[k - 1];
    }
  }

  lemma {:induction false} SplitLastClean(s: string, pat: string)
    requires pat != []
    ensures !Contains(Split(s, pat)[|Split(s, pat)| - 1], pat)
    decreases |s|
  {
    match Find(s, pat)
    case None =>
      ContainsFind(s, pat);
      assert Split(s, pat) == [s];
    case Some(i) =>
      var rest := s[i + |pat|..];
      SplitLastClean(rest, pat);
      SplitAt(s, pat, i);
      LastInFront(s[..i], Split(rest, pat));
  }

  /** Putting a piece in front keeps the last piece. */
  lemma LastInFront(p: string, tail: seq<string>)
    requires |tail| >= 1
    ensures ([p] + tail)[|tail|] == tail[|tail| - 1]
  {
  }

  /** Splitting at the leftmost occurrence. */
  lemma SplitAt(s: string, pat: string, i: nat)
    requires pat != [] && Find(s, pat) == Some(i)
    ensures Split(s, pat) == [s[..i]] + Split(s[i + |pat|..], pat)
  {
  }

  /** The piece before the leftmost occurrence is clean. */
  lemma FirstPieceClean(s: string, pat: string, i: nat)
    requires Find(s, pat) == Some(i)
    ensures CleanPiece(s[..i], pat)
  {
    assert s[..i] + pat == s[..i + |pat|];
    forall j | 0 <= j < i ensures !OccursAt(s[..i] + pat, pat, j) {
      assert !OccursAt(s, pat, j);
      assert (s[..i] + pat)[j..j + |pat|] == s[j..j + |pat|];
    }
  }

  /** A scan that meets no occurrence before index `k` copies `s[..k]`. */
  lemma {:induction false} ReplaceAllSkip(s: string, pat: string, rep: string, k: nat)
    requires pat != [] && k <= |s|
    requires forall j :: 0 <= j < k ==> !OccursAt(s, pat, j)
    ensures ReplaceAll(s, pat, rep) == s[..k] + ReplaceAll(s[k..], pat, rep)
    decreases k
  {
    if k > 0 && |s| >= |pat| {
      assert !OccursAt(s, pat, 0);
      assert s[..|pat|] == s[0..|pat|];
      OccursShift(s, pat);
      forall j | 0 <= j < k - 1 ensures !OccursAt(s[1..], pat, j) {
        assert !OccursAt(s, pat, j + 1);
      }
      ReplaceAllSkip(s[1..], pat, rep, k - 1);
      assert s[1..][k - 1..] == s[k..];
      assert s[..k] == [s[0]] + s[1..][..k - 1];
    } else if k > 0 {
      assert |s[k..]| < |pat|;
    }
  }

  /** Replacement is `rep.join(s.split(pat))`: every piece of the leftmost
      decomposition is kept and every separator becomes `rep`. */
  lemma {:induction false} ReplaceAllSplit(s: string, pat: string, rep: string)
    requires pat != []
    ensures ReplaceAll(s, pat, rep) == JoinWith(Split(s, pat), rep)
    decreases |s|
  {
    match Find(s, pat)
    case None =>
      ContainsFind(s, pat);
      assert Split(s, pat) == [s];
    case Some(i) =>
      var rest := s[i + |pat|..];
      ReplaceAt(s, pat, rep, i);
      ReplaceAllSplit(rest, pat, rep);
      SplitAt(s, pat, i);
      JoinPiece(s[..i], ReplaceAll(rest, pat, rep), Split(rest, pat), rep);
  }

  /** Putting a piece in front of pieces whose join is `joined`. */
  lemma JoinPiece(p: string, joined: string, parts: seq<string>, sep: string)
    requires |parts| >= 1 && joined == JoinWith(parts, sep)
    ensures p + (sep + joined) == JoinWith([p] + parts, sep)
  {
    JoinCons(p, parts, sep);
  }

  /** At the leftmost occurrence the scan copies what precedes it, emits
      `rep`, and carries on after the occurrence. */
  lemma ReplaceAt(s: string, pat: string, rep: string, i: nat)
    requires pat != [] && OccursAt(s, pat, i)
    requires forall j :: 0 <= j < i ==> !OccursAt(s, pat, j)
    ensures ReplaceAll(s, pat, rep) == s[..i] + (rep + ReplaceAll(s[i + |pat|..], pat, rep))
  {
    ReplaceAllSkip(s, pat, rep, i);
    ReplaceMatch(s[i..], pat, rep);
    assert s[i..][|pat|..] == s[i + |pat|..];
  }

  /** A scan that starts on a match replaces it. */
  lemma ReplaceMatch(t: string, pat: string, rep: string)
    requires pat != [] && OccursAt(t, pat, 0)
    ensures ReplaceAll(t, pat, rep) == rep + ReplaceAll(t[|pat|..], pat, rep)
  {
    assert t[..|pat|] == t[0..|pat|];
  }

  /** Replacing a pattern that occurs leaves the replacement in the text. */
  /** Where no occurrence starts at the front, the first character is kept. */
  lemma ReplaceHeadMiss(s: string, pat: string, rep: string)
    requires pat != [] && s != []
    requires !OccursAt(s, pat, 0)
    ensures ReplaceAll(s, pat, rep) == [s[0]] + ReplaceAll(s[1..], pat, rep)
  {
    if |s| < |pat| {
      assert ReplaceAll(s[1..], pat, rep) == s[1..];
      assert s == [s[0]] + s[1..];
    } else {
      assert s[0..|pat|] == s[..|pat|];
    }
  }

  lemma ReplaceAllLeavesRep(s: string, pat: string, rep: string)
    requires pat != [] && Contains(s, pat)
    ensures Contains(ReplaceAll(s, pat, rep), rep)
  {
    ContainsFind(s, pat);
    var i := Find(s, pat).value;
    ReplaceAt(s, pat, rep, i);
    var r := ReplaceAll(s, pat, rep);
    assert r[i..i + |rep|] == rep;
    assert OccursAt(r, rep, i);
  }

  /** A pattern holding a character the text lacks does not occur in it. */
  lemma MissingChar(s: string, pat: string, c: char)
    requires c in pat && c !in s
    ensures !Contains(s, pat)
  {
    var m :| 0 <= m < |pat| && pat[m] == c;
    forall i | 0 <= i <= |s| - |pat| ensures !OccursAt(s, pat, i) {
      assert s[i..i + |pat|][m] == s[i + m];
    }
  }

  /** A character in neither the text nor the replacement is not in the
      result. */
  lemma {:induction false} ReplaceAllAvoids(s: string, pat: string, rep: string, c: char)
    requires pat != [] && c !in s && c !in rep
    ensures c !in ReplaceAll(s, pat, rep)
    decreases |s|
  {
    if |s| >= |pat| {
      if s[..|pat|] == pat {
        assert c !in s[|pat|..] by {
          assert forall k :: 0 <= k < |s| - |pat| ==> s[|pat|..][k] == s[|pat| + k];
        }
        ReplaceAllAvoids(s[|pat|..], pat, rep, c);
      } else {
        assert c !in s[1..] by {
          assert forall k :: 0 <= k < |s| - 1 ==> s[1..][k] == s[1 + k];
        }
        ReplaceAllAvoids(s[1..], pat, rep, c);
      }
    }
  }

  /** Undoing a replacement by the reverse replacement restores the text
      when the replaced text splits on `rep` at the places where the
      original split on `pat`. */
  lemma ReplaceAllUndo(s: string, pat: string, rep: string)
    requires pat != [] && rep != []
    requires Split(ReplaceAll(s, pat, rep), rep) == Split(s, pat)
    ensures ReplaceAll(ReplaceAll(s, pat, rep), rep, pat) == s
  {
    ReplaceAllSplit(ReplaceAll(s, pat, rep), rep, pat);
    SplitJoin(s, pat);
  }

  /** The reverse replacement does not undo a replacement in general, even
      when `pat` occurs exactly once: text that already held `rep` is
      rewritten too. */
  lemma ReplaceAllUndoCounterexample()
    ensures Split("ab", "a") == ["", "b"]
    ensures ReplaceAll("ab", "a", "b") == "bb"
    ensures ReplaceAll(ReplaceAll("ab", "a", "b"), "b", "a") == "aa"
  {
    assert Find("ab", "a") == Some(0);
    assert Find("b", "a") == None by {
      assert "b"[0..1] == "b";
    }
    assert "ab"[1..] == "b";
    assert "bb"[1..] == "b";
  }

  /** Scanning is non-overlapping and does not rescan replacement text. */
  lemma ReplaceAllNonOverlapping()
    ensures ReplaceAll("aaa", "aa", "b") == "ba"
    ensures ReplaceAll("aaaa", "aa", "b") == "bb"
    ensures ReplaceAll("aab", "ab", "a") == "aa"
  {
    assert ReplaceAll("", "aa", "b") == "";
    assert ReplaceAll("a", "aa", "b") == "a";
    assert ReplaceAll("aa", "aa", "b") == "b" by {
      assert "aa"[..2] == "aa" && "aa"[2..] == "";
    }
    assert "aaa"[..2] == "aa" && "aaa"[2..] == "a";
    assert "aaaa"[..2] == "aa" && "aaaa"[2..] == "aa";
    assert ReplaceAll("ab", "ab", "a") == "a" by {
      assert "ab"[..2] == "ab" && "ab"[2..] == "";
    }
    assert "aab"[..2] == "aa" && "aab"[1..] == "ab";
  }

  /** Text that a replacement brings together is not searched again:
      removing `ab` from `aabb` leaves `ab`, where repeating the search
      would leave nothing. */
  lemma ReplaceAllNoRescan()
    ensures ReplaceAll("aabb", "ab", "") == "ab"
    ensures ReplaceAll("ab", "ab", "") == ""
  {
    assert ReplaceAll("b", "ab", "") == "b";
    assert ReplaceAll("abb", "ab", "") == "b" by {
      assert "abb"[..2] == "ab" && "abb"[2..] == "b";
    }
    assert "aabb"[..2] != "ab" && "aabb"[1..] == "abb";
    assert "ab"[..2] == "ab" && "ab"[2..] == "";
  }
}
