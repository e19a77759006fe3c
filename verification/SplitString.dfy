/**
 splitString (Funcs.cc): split at the leftmost separators that do not overlap, and keep the
 pieces that are not empty.
 */
module SplitStrings {
  import opened Common

  /** `sep` stands at position i: `str.substr(i, separator.length()) == separator`. */
  predicate At(s: string, sep: string, i: nat) {
    i + |sep| <= |s| && s[i..i + |sep|] == sep
  }

  ghost predicate Contains(s: string, sep: string) {
    exists i: nat {:trigger At(s, sep, i)} :: At(s, sep, i)
  }

  /** std::string::find. */
  function Find(s: string, sep: string, from: nat): (p: Option<nat>)
    requires from <= |s|
    ensures p.Some? ==> from <= p.value && At(s, sep, p.value)
    decreases |s| - from
  {
    if from == |s| then (if sep == "" then Some(from) else None)
    else if At(s, sep, from) then Some(from)
    else Find(s, sep, from + 1)
  }

  /** It is the first place at or after `from`, and it is found when there is one. */
  lemma {:induction false} FindFirst(s: string, sep: string, from: nat, j: nat)
    requires from <= |s| && from <= j && At(s, sep, j)
    ensures Find(s, sep, from).Some? && Find(s, sep, from).value <= j
    decreases |s| - from
  {
    if !At(s, sep, from) { FindFirst(s, sep, from + 1, j); }
  }

  /** All the pieces of s from a position on, empty ones too. */
  function Pieces(s: string, sep: string, from: nat): (ps: seq<string>)
    requires sep != "" && from <= |s|
    ensures ps != []
    decreases |s| - from
  {
    match Find(s, sep, from)
    case None => [s[from..]]
    case Some(i) => [s[from..i]] + Pieces(s, sep, i + |sep|)
  }

  function NonEmpty(ps: seq<string>): seq<string> {
    if ps == [] then [] else (if ps[0] == "" then [] else [ps[0]]) + NonEmpty(ps[1..])
  }

  lemma {:induction false} NonEmptyIff(ps: seq<string>, item: string)
    ensures item in NonEmpty(ps) <==> item in ps && item != ""
  {
    if ps != [] { NonEmptyIff(ps[1..], item); }
  }

  /** The items of s from a position on. */
  function Items(s: string, sep: string, from: nat): seq<string>
    requires sep != "" && from <= |s|
  {
    NonEmpty(Pieces(s, sep, from))
  }

  function Split(s: string, sep: string): seq<string>
    requires sep != ""
  {
    Items(s, sep, 0)
  }

  // --- What a split is ---------------------------------------------------------------------------

  lemma {:induction false} PiecesAreFree(s: string, sep: string, from: nat)
    requires sep != "" && from <= |s|
    ensures forall p :: p in Pieces(s, sep, from) ==> !Contains(p, sep)
    decreases |s| - from
  {
    match Find(s, sep, from)
    case None =>
      assert s[from..] == s[from..|s|];
      FreeSlice(s, sep, from, |s|);
    case Some(i) =>
      FreeSlice(s, sep, from, i);
      PiecesAreFree(s, sep, i + |sep|);
  }

  lemma FreeSlice(s: string, sep: string, from: nat, to: nat)
    requires from <= to <= |s| && sep != "" && (Find(s, sep, from).Some? ==> Find(s, sep, from).value >= to)
    ensures !Contains(s[from..to], sep)
  {
    forall i: nat ensures !At(s[from..to], sep, i) {
      if At(s[from..to], sep, i) {
        SliceOfSlice(s, from, to, i, i + |sep|);
        FindFirst(s, sep, from, from + i);
      }
    }
  }

  lemma SliceOfSlice<T>(s: seq<T>, from: nat, to: nat, i: nat, j: nat)
    requires from <= to <= |s| && i <= j <= to - from
    ensures s[from..to][i..j] == s[from + i..from + j]
  {
    var a, b := s[from..to][i..j], s[from + i..from + j];
    assert forall k :: 0 <= k < j - i ==> a[k] == s[from + i + k] == b[k];
  }

  /** No item is empty or contains the separator. */
  lemma ItemsAreFree(s: string, sep: string)
    requires sep != ""
    ensures forall item :: item in Split(s, sep) ==> item != "" && !Contains(item, sep)
  {
    PiecesAreFree(s, sep, 0);
    forall item | item in Split(s, sep) ensures item != "" && !Contains(item, sep) {
      NonEmptyIff(Pieces(s, sep, 0), item);
    }
  }

  function Repeat(sep: string, n: nat): string {
    if n == 0 then "" else sep + Repeat(sep, n - 1)
  }

  /** The items with so many separators before each, and behind the last. */
  function Rebuilt(items: seq<string>, gaps: seq<nat>, sep: string): string
    requires |gaps| == |items| + 1
  {
    Repeat(sep, gaps[0]) + if items == [] then "" else items[0] + Rebuilt(items[1..], gaps[1..], sep)
  }

  /** How many separators stand before each item, and behind the last. */
  function Gaps(ps: seq<string>): (gaps: seq<nat>)
    requires ps != []
    ensures |gaps| == |NonEmpty(ps)| + 1
  {
    if |ps| == 1 then
      assert NonEmpty(ps[1..]) == [];
      if ps[0] == "" then [0] else [0, 0]
    else
      var rest := Gaps(ps[1..]);
      if ps[0] == "" then [rest[0] + 1] + rest[1..] else [0, rest[0] + 1] + rest[1..]
  }

  lemma {:induction false} GapsInside(ps: seq<string>)
    requires ps != []
    ensures forall k :: 1 <= k < |NonEmpty(ps)| ==> Gaps(ps)[k] >= 1
  {
    if |ps| > 1 {
      GapsInside(ps[1..]);
    } else {
      assert NonEmpty(ps[1..]) == [];
    }
  }

  lemma MoreBefore(items: seq<string>, gaps: seq<nat>, sep: string)
    requires |gaps| == |items| + 1
    ensures Rebuilt(items, [gaps[0] + 1] + gaps[1..], sep) == sep + Rebuilt(items, gaps, sep)
  {
    assert ([gaps[0] + 1] + gaps[1..])[1..] == gaps[1..];
  }

  lemma {:induction false} PiecesRebuild(s: string, sep: string, from: nat, ps: seq<string>)
    requires sep != "" && from <= |s| && ps == Pieces(s, sep, from)
    ensures Rebuilt(NonEmpty(ps), Gaps(ps), sep) == s[from..]
    decreases |s| - from
  {
    var p := Find(s, sep, from);
    PiecesAre(s, sep, from, p);
    if p.None? {
      LastRebuilt(s[from..], sep);
    } else {
      var rest := Pieces(s, sep, p.value + |sep|);
      PiecesRebuild(s, sep, p.value + |sep|, rest);
      RebuildMore(s, sep, from, p.value, rest);
    }
  }

  lemma PiecesAre(s: string, sep: string, from: nat, p: Option<nat>)
    requires sep != "" && from <= |s| && p == Find(s, sep, from)
    ensures Pieces(s, sep, from) == match p
            case None => [s[from..]]
            case Some(i) => [s[from..i]] + Pieces(s, sep, i + |sep|)
  {
  }

  lemma RebuildMore(s: string, sep: string, from: nat, i: nat, rest: seq<string>)
    requires from <= i && At(s, sep, i) && rest != [] && Rebuilt(NonEmpty(rest), Gaps(rest), sep) == s[i + |sep|..]
    ensures Rebuilt(NonEmpty([s[from..i]] + rest), Gaps([s[from..i]] + rest), sep) == s[from..]
  {
    MoreRebuilt(s[from..i], rest, sep);
    CutAt(s, sep, from, i);
  }

  lemma CutAt(s: string, sep: string, from: nat, i: nat)
    requires from <= i && At(s, sep, i)
    ensures s[from..] == s[from..i] + (sep + s[i + |sep|..])
  {
    assert s[i..] == s[i..i + |sep|] + s[i + |sep|..];
    assert s[from..] == s[from..i] + s[i..];
  }

  lemma LastRebuilt(p: string, sep: string)
    ensures Rebuilt(NonEmpty([p]), Gaps([p]), sep) == p
  {
    assert NonEmpty([p][1..]) == [];
    assert Repeat(sep, 0) == "";
  }

  lemma MoreRebuilt(p: string, rest: seq<string>, sep: string)
    requires rest != []
    ensures Rebuilt(NonEmpty([p] + rest), Gaps([p] + rest), sep) == p + (sep + Rebuilt(NonEmpty(rest), Gaps(rest), sep))
  {
    var items, gaps := NonEmpty(rest), Gaps(rest);
    var more := [gaps[0] + 1] + gaps[1..];
    assert ([p] + rest)[1..] == rest;
    MoreBefore(items, gaps, sep);
    if p == "" {
      assert NonEmpty([p] + rest) == items && Gaps([p] + rest) == more;
    } else {
      assert NonEmpty([p] + rest) == [p] + items && Gaps([p] + rest) == [0] + more;
      FirstRebuilt(p, items, more, sep);
    }
  }

  lemma FirstRebuilt(p: string, items: seq<string>, gaps: seq<nat>, sep: string)
    requires |gaps| == |items| + 1
    ensures Rebuilt([p] + items, [0] + gaps, sep) == p + Rebuilt(items, gaps, sep)
  {
    assert ([p] + items)[1..] == items && ([0] + gaps)[1..] == gaps;
    assert Repeat(sep, 0) == "";
  }

  /** The items, with one or more separators between them, rebuild the input. */
  lemma ItemsRebuild(s: string, sep: string) returns (gaps: seq<nat>)
    requires sep != ""
    ensures |gaps| == |Split(s, sep)| + 1 && Rebuilt(Split(s, sep), gaps, sep) == s
    ensures forall k :: 1 <= k < |Split(s, sep)| ==> gaps[k] >= 1
  {
    PiecesRebuild(s, sep, 0, Pieces(s, sep, 0));
    GapsInside(Pieces(s, sep, 0));
    gaps := Gaps(Pieces(s, sep, 0));
    assert s[0..] == s;
  }

  // --- The loops ---------------------------------------------------------------------------------

  /** The test of the inner loop. */
  predicate Again(s: string, sep: string, pos2: nat) {
    pos2 < |s| && At(s, sep, pos2)
  }

  method SplitString(str: string, separator: string) returns (ret: seq<string>)
    requires separator != ""
    ensures ret == Split(str, separator)
  {
    ret := [];
    var pos2 := 0;
    var pos1 := Find(str, separator, 0);
    ghost var all := Items(str, separator, 0);
    assert ret + all == all;
    while pos1.Some?
      invariant pos2 <= |str| && pos1 == Find(str, separator, pos2)
      invariant pos1.Some? ==> pos1.value == 0 == pos2 || pos1.value > pos2
      invariant ret + Items(str, separator, pos2) == all
      decreases |str| - pos2
    {
      if pos1.value != 0 {
        FullPiece(ret, str, separator, pos2);
        ret := ret + [str[pos2..pos1.value]];
      } else {
        EmptyPiece(str, separator, pos2);
      }
      pos2 := SkipSeparators(str, separator, pos1.value + |separator|);
      pos1 := Find(str, separator, pos2);
      FoundLater(str, separator, pos2);
    }
    LastPiece(ret, str, separator, pos2);
    if pos2 < |str| {
      ret := ret + [str[pos2..]];
    }
  }

  lemma FoundLater(s: string, sep: string, pos2: nat)
    requires sep != "" && pos2 <= |s| && !Again(s, sep, pos2)
    ensures Find(s, sep, pos2).Some? ==> Find(s, sep, pos2).value > pos2
  {
  }

  /** The inner loop. */
  method SkipSeparators(str: string, separator: string, start: nat) returns (pos2: nat)
    requires separator != "" && start <= |str|
    ensures start <= pos2 <= |str| && !Again(str, separator, pos2)
    ensures Items(str, separator, pos2) == Items(str, separator, start)
  {
    pos2 := start;
    while Again(str, separator, pos2)
      invariant start <= pos2 <= |str|
      invariant Items(str, separator, pos2) == Items(str, separator, start)
      decreases |str| - pos2
    {
      EmptyPiece(str, separator, pos2);
      pos2 := pos2 + |separator|;
    }
  }

  lemma EmptyPiece(s: string, sep: string, from: nat)
    requires sep != "" && from <= |s| && At(s, sep, from)
    ensures Items(s, sep, from) == Items(s, sep, from + |sep|)
  {
    assert Pieces(s, sep, from)[1..] == Pieces(s, sep, from + |sep|);
  }

  lemma FullPiece(ret: seq<string>, s: string, sep: string, from: nat)
    requires sep != "" && from <= |s| && Find(s, sep, from).Some? && Find(s, sep, from).value > from
    ensures var i := Find(s, sep, from).value;
            ret + Items(s, sep, from) == ret + [s[from..i]] + Items(s, sep, i + |sep|)
  {
    var i := Find(s, sep, from).value;
    assert Pieces(s, sep, from)[1..] == Pieces(s, sep, i + |sep|);
  }

  lemma LastPiece(ret: seq<string>, s: string, sep: string, from: nat)
    requires sep != "" && from <= |s| && Find(s, sep, from).None?
    ensures ret + Items(s, sep, from) == if from < |s| then ret + [s[from..]] else ret
  {
    assert NonEmpty(Pieces(s, sep, from)[1..]) == [];
  }

  /**
   A turn of the outer loop ends where it started exactly when the separator is empty.  Then
   both loops go round for ever: the search finds every position at once, and before the end
   the inner test holds there too.
   */
  lemma StuckIff(s: string, sep: string, pos2: nat)
    requires pos2 <= |s|
    ensures Find(s, sep, pos2).Some? ==> (Find(s, sep, pos2).value + |sep| == pos2 <==> sep == "")
    ensures sep == "" ==> Find(s, sep, pos2) == Some(pos2) && (Again(s, sep, pos2) <==> pos2 < |s|)
  {
  }
}
