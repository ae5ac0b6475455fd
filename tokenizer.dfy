/**
 * The tokenizer behind `PageMetadata.keywords`: Swift's
 * `split(separator: ",", omittingEmptySubsequences: true)` on a string,
 * with characters as the elements of a sequence.
 */
module Tokenizer {

  const Separator: char := ','

  /** True when `s` holds no separator. */
  predicate CommaFree(s: string)
  {
    Separator !in s
  }

  /** A run of `s` is separator-free when none of its positions holds one. */
  lemma CommaFreeRun(s: string, a: nat, b: nat)
    requires a <= b <= |s|
    ensures CommaFree(s[a..b]) <==> forall m :: a <= m < b ==> s[m] != Separator
  {
    if !CommaFree(s[a..b]) {
      var m :| 0 <= m < b - a && s[a..b][m] == Separator;
      assert s[a + m] == Separator;
    }
    if exists m :: a <= m < b && s[m] == Separator {
      var m :| a <= m < b && s[m] == Separator;
      assert s[a..b][m - a] == Separator;
    }
  }

  /**
   * The index of the first separator in `s` at or after `from`, or `|s|`
   * when there is none.
   */
  function SeparatorIndex(s: string, from: nat): (k: nat)
    requires from <= |s|
    ensures from <= k <= |s|
    ensures forall m :: from <= m < k ==> s[m] != Separator
    ensures k < |s| ==> s[k] == Separator
    decreases |s| - from
  {
    if from == |s| || s[from] == Separator then from
    else SeparatorIndex(s, from + 1)
  }

  /** A separator at `k` with none from `from` up to it is the first one (an unfolding hint). */
  lemma SeparatorIndexAt(s: string, from: nat, k: nat)
    requires from <= k <= |s|
    requires forall m :: from <= m < k ==> s[m] != Separator
    requires k < |s| ==> s[k] == Separator
    ensures SeparatorIndex(s, from) == k
  {
  }

  /**
   * The pieces of `s[from..]` between separators, in order, with the empty
   * ones dropped.
   */
  function SplitFrom(s: string, from: nat): (r: seq<string>)
    requires from <= |s|
    ensures forall p :: p in r ==> p != [] && CommaFree(p)
    decreases |s| - from
  {
    if from == |s| then []
    else
      var k := SeparatorIndex(s, from);
      CommaFreeRun(s, from, k);
      var head := if k == from then [] else [s[from..k]];
      var tail := if k < |s| then SplitFrom(s, k + 1) else [];
      head + tail
  }

  /** `s.split(separator: ",", omittingEmptySubsequences: true)`. */
  function Split(s: string): (r: seq<string>)
    ensures forall p :: p in r ==> p != [] && CommaFree(p)
  {
    SplitFrom(s, 0)
  }

  /** `ps` joined with single separators: Swift's `joined(separator: ",")`. */
  function Join(ps: seq<string>): (r: string)
  {
    if |ps| == 0 then []
    else if |ps| == 1 then ps[0]
    else ps[0] + [Separator] + Join(ps[1..])
  }

  /** `ps` without its empty elements, in order. */
  function NonEmpty(ps: seq<string>): (r: seq<string>)
    ensures forall p :: p in r <==> p in ps && p != []
  {
    if ps == [] then []
    else if ps[0] == [] then NonEmpty(ps[1..])
    else [ps[0]] + NonEmpty(ps[1..])
  }

  /**
   * `p` is the run `s[i..j]` of `s`: non-empty, separator-free, starting at
   * the beginning or after a separator and ending at the end or before one.
   */
  predicate FieldAt(s: string, p: string, i: int, j: int)
  {
    && 0 <= i < j <= |s|
    && s[i..j] == p
    && CommaFree(p)
    && (i == 0 || s[i - 1] == Separator)
    && (j == |s| || s[j] == Separator)
  }

  /** A keyword of `s`: a field of `s` somewhere. */
  ghost predicate IsField(s: string, p: string)
  {
    exists i, j :: FieldAt(s, p, i, j)
  }

  /** `from` is where a field may start: the beginning, or just after a separator. */
  predicate FieldStart(s: string, from: nat)
  {
    from <= |s| && (from == 0 || s[from - 1] == Separator)
  }

  /** One step of SplitFrom: the piece before the next separator, then the rest (an unfolding hint). */
  lemma SplitFromUnfold(s: string, from: nat)
    requires from < |s|
    ensures var k := SeparatorIndex(s, from);
      SplitFrom(s, from)
      == (if k == from then [] else [s[from..k]]) + (if k < |s| then SplitFrom(s, k + 1) else [])
  {
  }

  /** A piece of SplitFrom is the first piece or a piece after the next separator. */
  lemma SplitFromCases(s: string, from: nat, p: string) returns (first: bool)
    requires from <= |s| && p in SplitFrom(s, from)
    ensures from < |s|
    ensures first ==> from < SeparatorIndex(s, from) && p == s[from..SeparatorIndex(s, from)]
    ensures !first ==> SeparatorIndex(s, from) < |s| && p in SplitFrom(s, SeparatorIndex(s, from) + 1)
  {
    SplitFromUnfold(s, from);
    var k := SeparatorIndex(s, from);
    first := from < k && p == s[from..k];
  }

  /** The first piece, when non-empty, is a piece of SplitFrom. */
  lemma SplitFromHasFirst(s: string, from: nat)
    requires from < |s| && from < SeparatorIndex(s, from)
    ensures s[from..SeparatorIndex(s, from)] in SplitFrom(s, from)
  {
    SplitFromUnfold(s, from);
  }

  /** The pieces after the next separator are pieces of SplitFrom. */
  lemma SplitFromHasRest(s: string, from: nat, p: string)
    requires from < |s| && SeparatorIndex(s, from) < |s|
    requires p in SplitFrom(s, SeparatorIndex(s, from) + 1)
    ensures p in SplitFrom(s, from)
  {
    SplitFromUnfold(s, from);
  }

  /** The first piece, when non-empty, is a field. */
  lemma FirstPieceField(s: string, from: nat)
    requires FieldStart(s, from) && from < SeparatorIndex(s, from)
    ensures FieldAt(s, s[from..SeparatorIndex(s, from)], from, SeparatorIndex(s, from))
  {
    CommaFreeRun(s, from, SeparatorIndex(s, from));
  }

  /** A field that starts where splitting starts ends at the next separator. */
  lemma FieldIsFirstPiece(s: string, from: nat, p: string, j: int)
    requires FieldStart(s, from) && FieldAt(s, p, from, j)
    ensures SeparatorIndex(s, from) == j
  {
    CommaFreeRun(s, from, j);
    SeparatorIndexAt(s, from, j);
  }

  /** A separator at `i - 1`, at or after `from`, lies at or after the next separator (an unfolding hint). */
  lemma SeparatorIndexBefore(s: string, from: nat, i: nat)
    requires from < i <= |s| && s[i - 1] == Separator
    ensures SeparatorIndex(s, from) < i
  {
  }

  /** Every piece SplitFrom returns is a field of `s` at or after `from`, and where. */
  lemma {:induction false} SplitFromSound(s: string, from: nat, p: string) returns (i: int, j: int)
    requires FieldStart(s, from)
    requires p in SplitFrom(s, from)
    ensures from <= i && FieldAt(s, p, i, j)
    decreases |s| - from
  {
    var first := SplitFromCases(s, from, p);
    var k := SeparatorIndex(s, from);
    if first {
      FirstPieceField(s, from);
      i, j := from, k;
    } else {
      i, j := SplitFromSound(s, k + 1, p);
    }
  }

  /** Every field of `s` at or after `from` is among the pieces SplitFrom returns. */
  lemma {:induction false} SplitFromComplete(s: string, from: nat, p: string, i: int, j: int)
    requires FieldStart(s, from)
    requires from <= i && FieldAt(s, p, i, j)
    ensures p in SplitFrom(s, from)
    decreases |s| - from
  {
    if i == from {
      FieldIsFirstPiece(s, from, p, j);
      SplitFromHasFirst(s, from);
    } else {
      SeparatorIndexBefore(s, from, i);
      var k := SeparatorIndex(s, from);
      SplitFromComplete(s, k + 1, p, i, j);
      SplitFromHasRest(s, from, p);
    }
  }

  /** The pieces Split returns are exactly the fields of its input. */
  lemma SplitIsFields(s: string, p: string)
    ensures p in Split(s) <==> IsField(s, p)
  {
    if p in Split(s) {
      var i, j := SplitFromSound(s, 0, p);
    }
    if IsField(s, p) {
      var i, j :| FieldAt(s, p, i, j);
      SplitFromComplete(s, 0, p, i, j);
    }
  }

  /** When `s[from..]` is a separator-free `p`, a separator and `rest`, the separator ends `p`. */
  lemma ConsAt(s: string, from: nat, p: string, rest: string)
    requires from <= |s| && s[from..] == p + [Separator] + rest
    requires CommaFree(p)
    ensures from + |p| < |s|
    ensures SeparatorIndex(s, from) == from + |p|
    ensures s[from..from + |p|] == p
    ensures s[from + |p| + 1..] == rest
  {
    var t := s[from..];
    assert |t| == |p| + 1 + |rest|;
    forall m | from <= m < from + |p|
      ensures s[m] != Separator
    {
      assert s[m] == t[m - from] == p[m - from];
    }
    assert s[from + |p|] == t[|p|];
    SeparatorIndexAt(s, from, from + |p|);
    assert s[from..from + |p|] == t[..|p|];
    assert s[from + |p| + 1..] == t[|p| + 1..];
  }

  /** Splitting from `from` when the next separator is at `k`. */
  lemma SplitFromStep(s: string, from: nat, k: nat)
    requires from <= k < |s| && SeparatorIndex(s, from) == k
    ensures SplitFrom(s, from) == (if k == from then [] else [s[from..k]]) + SplitFrom(s, k + 1)
  {
    SplitFromUnfold(s, from);
  }

  /** Splitting from `from` when `s[from..]` is a separator-free `p`. */
  lemma SplitFromLast(s: string, from: nat, p: string)
    requires from <= |s| && s[from..] == p
    requires CommaFree(p)
    ensures SplitFrom(s, from) == if p == [] then [] else [p]
  {
    if p != [] {
      forall m | from <= m < |s|
        ensures s[m] != Separator
      {
        assert s[m] == s[from..][m - from] == p[m - from];
      }
      SeparatorIndexAt(s, from, |s|);
      assert s[from..|s|] == p;
      SplitFromUnfold(s, from);
    }
  }

  /**
   * One step of splitting a join: when `s[from..]` joins two or more
   * separator-free pieces, the rest after the first separator joins all
   * pieces but the first, and splitting from `from` adds the first piece,
   * when non-empty, in front of splitting that rest.
   */
  lemma SplitFromJoinStep(s: string, from: nat, ps: seq<string>) returns (k: nat)
    requires from <= |s| && s[from..] == Join(ps) && |ps| > 1
    requires forall p :: p in ps ==> CommaFree(p)
    ensures k < |s| && s[k + 1..] == Join(ps[1..])
    ensures forall p :: p in ps[1..] ==> CommaFree(p)
    ensures SplitFrom(s, k + 1) == NonEmpty(ps[1..]) ==> SplitFrom(s, from) == NonEmpty(ps)
  {
    var p := ps[0];
    k := from + |p|;
    assert p in ps;
    ConsAt(s, from, p, Join(ps[1..]));
    SplitFromStep(s, from, k);
    assert forall q :: q in ps[1..] ==> q in ps;
  }

  /** Splitting from `from` a text whose rest is a join of separator-free pieces. */
  lemma {:induction false} SplitFromJoin(s: string, from: nat, ps: seq<string>)
    requires from <= |s| && s[from..] == Join(ps)
    requires forall p :: p in ps ==> CommaFree(p)
    ensures SplitFrom(s, from) == NonEmpty(ps)
    decreases ps
  {
    if |ps| == 1 {
      assert ps[0] in ps;
      assert ps[1..] == [];
      SplitFromLast(s, from, ps[0]);
    } else if |ps| > 1 {
      var k := SplitFromJoinStep(s, from, ps);
      SplitFromJoin(s, k + 1, ps[1..]);
    }
  }

  /** Splitting a join of separator-free pieces gives back its non-empty pieces. */
  lemma SplitJoin(ps: seq<string>)
    requires forall p :: p in ps ==> CommaFree(p)
    ensures Split(Join(ps)) == NonEmpty(ps)
  {
    var s := Join(ps);
    assert s[0..] == s;
    SplitFromJoin(s, 0, ps);
  }

  /** Dropping the empty elements of a sequence that has none changes nothing. */
  lemma {:induction false} NonEmptyOfNonEmpty(ps: seq<string>)
    requires forall p :: p in ps ==> p != []
    ensures NonEmpty(ps) == ps
  {
    if ps != [] {
      assert ps[0] in ps;
      assert forall p :: p in ps[1..] ==> p in ps;
      NonEmptyOfNonEmpty(ps[1..]);
      assert ps == [ps[0]] + ps[1..];
    }
  }

  /** Splitting a join of non-empty, separator-free pieces gives them back. */
  lemma SplitJoinRoundTrip(ps: seq<string>)
    requires forall p :: p in ps ==> p != [] && CommaFree(p)
    ensures Split(Join(ps)) == ps
  {
    SplitJoin(ps);
    NonEmptyOfNonEmpty(ps);
  }

  /**
   * Joining the pieces of `s` again removes its empty fields and nothing
   * else: splitting the result gives the same pieces.
   */
  lemma SplitJoinSplit(s: string)
    ensures Split(Join(Split(s))) == Split(s)
  {
    SplitJoinRoundTrip(Split(s));
  }
}
