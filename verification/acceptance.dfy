/**
 * Every well-formed bet message is accepted: for each of the ten patterns, any
 * keyword of the rule followed by well-formed fields (with the padding the
 * pattern allows) is matched, and the record built from it holds the fields
 * that were written.
 */
module Acceptance {
  import opened Wrappers
  import opened Text
  import opened Bets

  /** The single space that normalisation leaves between fields. */
  lemma OneSpace()
    ensures AllSpaces(" ")
  {
  }

  /** A digit is never whitespace, so trimming stops at it. */
  lemma DigitIsVisible(c: char)
    requires IsDigit(c)
    ensures !IsSpace(c) && IsStop(c)
  {
  }

  /** `\s*(\d+)$` accepts any whitespace run followed by the stake's digits. */
  lemma StakeTailAccepts(sp: string, d: string)
    requires AllSpaces(sp) && |d| > 0 && AllDigits(d)
    ensures StakeTail(sp + d) == Some(d)
  {
    DigitIsVisible(d[0]);
    TrimStartSpaces(sp, d);
  }

  /** `\s*([1-6]) (\d+)$` accepts whitespace, a face, one space and the stake's digits. */
  lemma FaceTailAccepts(sp: string, f: char, d: string)
    requires AllSpaces(sp) && '1' <= f <= '6' && |d| > 0 && AllDigits(d)
    ensures FaceTail(sp + ([f] + " " + d)) == Some(([f], d))
  {
    var t := [f] + " " + d;
    TrimStartSpaces(sp, t);
    assert t[..1] == [f] && t[2..] == d;
  }

  /** Every target from 4 to 17, written in decimal, is read whole by the target alternation. */
  lemma SumTargetAccepts(v: nat, rest: string)
    requires 4 <= v <= 17
    ensures SumTarget(Decimal(v) + rest) == Some(Decimal(v))
  {
    var t := Decimal(v) + rest;
    if v < 10 {
      assert t[..1] == Decimal(v);
    } else {
      assert Decimal(v) == Decimal(1) + [('0' as int + v % 10) as char];
      assert Decimal(v) == ['1', ('0' as int + v - 10) as char];
      assert t[..2] == Decimal(v);
    }
  }

  /** `\s*(4|...|17)\s*(\d+)$` accepts a padded target followed by a padded stake. */
  lemma SumTailAccepts(sp1: string, v: nat, sp2: string, d: string)
    requires AllSpaces(sp1) && AllSpaces(sp2) && 4 <= v <= 17 && |d| > 0 && AllDigits(d)
    ensures SumTail(sp1 + (Decimal(v) + (sp2 + d))) == Some((Decimal(v), d))
  {
    var t := Decimal(v) + (sp2 + d);
    DigitIsVisible(Decimal(v)[0]);
    TrimStartSpaces(sp1, t);
    SumTargetAccepts(v, sp2 + d);
    assert t[|Decimal(v)|..] == sp2 + d;
    StakeTailAccepts(sp2, d);
  }

  /** `\s*([1-3])\s*([1-6])\s*(\d+)$` accepts a padded position, face and stake. */
  lemma PositionTailAccepts(sp1: string, p: char, sp2: string, f: char, sp3: string, d: string)
    requires AllSpaces(sp1) && AllSpaces(sp2) && AllSpaces(sp3)
    requires '1' <= p <= '3' && '1' <= f <= '6' && |d| > 0 && AllDigits(d)
    ensures PositionTail(sp1 + ([p] + (sp2 + ([f] + (sp3 + d))))) == Some(([p], [f], d))
  {
    var u := [f] + (sp3 + d);
    var t := [p] + (sp2 + u);
    TrimStartSpaces(sp1, t);
    assert t[1..] == sp2 + u && t[..1] == [p];
    FaceThenStake(sp2, f, sp3, d);
  }

  /** The face and stake part of 定位胆's tail. */
  lemma FaceThenStake(sp2: string, f: char, sp3: string, d: string)
    requires AllSpaces(sp2) && AllSpaces(sp3) && '1' <= f <= '6' && |d| > 0 && AllDigits(d)
    ensures var u := TrimStart(sp2 + ([f] + (sp3 + d)));
      |u| > 0 && u[0] == f && u[..1] == [f] && StakeTail(u[1..]) == Some(d)
  {
    var u := [f] + (sp3 + d);
    TrimStartSpaces(sp2, u);
    assert u[1..] == sp3 + d && u[..1] == [f];
    StakeTailAccepts(sp3, d);
  }

  /** `^([1-3])\s*y\s*(\d+)$` accepts a position, padding, `y`, padding and the stake. */
  lemma PositionYAccepts(p: char, sp1: string, sp2: string, d: string)
    requires AllSpaces(sp1) && AllSpaces(sp2) && '1' <= p <= '3' && |d| > 0 && AllDigits(d)
    ensures PositionY([p] + sp1 + "y" + sp2 + d) == Some(([p], d))
  {
    var t := "y" + (sp2 + d);
    var s := [p] + (sp1 + t);
    Regroup5([p], sp1, "y", sp2, d);
    assert s[1..] == sp1 + t && s[..1] == [p];
    TrimStartSpaces(sp1, t);
    assert t[1..] == sp2 + d;
    StakeTailAccepts(sp2, d);
  }

  /**
   * A keyword of the alternation followed by text its tail accepts is matched as
   * that keyword: an earlier keyword cannot fit, since it would have to be the
   * same head of the text.
   */
  lemma {:induction false} FirstAltKeyword<T>(alts: seq<string>, w: string, rest: string, tail: string -> Option<T>)
    requires forall u :: u in alts ==> IsKeyword(u)
    requires forall x :: tail(x).Some? ==> StartsWithStop(x)
    requires w in alts && tail(rest).Some?
    ensures FirstAlt(alts, w + rest, tail) == Some((w, tail(rest).value))
    decreases |alts|
  {
    var s := w + rest;
    assert s[|w|..] == rest;
    if Fits(alts[0], s, tail) {
      assert alts[0] in alts;
      KeywordIsHead(alts[0], s);
      KeywordIsHead(w, s);
      assert alts[0] == s[..|w|] == w;
    } else {
      assert alts[0] != w;
      assert w in alts[1..];
      FirstAltKeyword(alts[1..], w, rest, tail);
    }
  }

  /** Stake-only rules: keyword, padding, stake. */
  lemma KeywordThenStake(alts: seq<string>, w: string, sp: string, d: string)
    requires forall u :: u in alts ==> IsKeyword(u)
    requires w in alts && AllSpaces(sp) && |d| > 0 && AllDigits(d)
    ensures FirstAlt(alts, w + sp + d, StakeTail) == Some((w, d))
  {
    StakeTailAccepts(sp, d);
    Regroup3(w, sp, d);
    FirstAltKeyword(alts, w, sp + d, StakeTail);
  }

  /** Face rules: keyword, padding, face, one space, stake. */
  lemma KeywordThenFace(alts: seq<string>, w: string, sp: string, f: char, d: string)
    requires forall u :: u in alts ==> IsKeyword(u)
    requires w in alts && AllSpaces(sp) && '1' <= f <= '6' && |d| > 0 && AllDigits(d)
    ensures FirstAlt(alts, w + sp + [f] + " " + d, FaceTail) == Some((w, ([f], d)))
  {
    FaceTailAccepts(sp, f, d);
    assert w + sp + [f] + " " + d == w + (sp + ([f] + " " + d));
    FirstAltKeyword(alts, w, sp + ([f] + " " + d), FaceTail);
  }

  /** 大小: any size keyword and stake are placed as that keyword's initials and the stake. */
  lemma SizeAccepted(w: string, sp: string, d: string)
    requires w in SizeWords && AllSpaces(sp) && |d| > 0 && AllDigits(d)
    ensures MatchSize(w + sp + d) == Some(Stake(Size(Initials(w), DigitsValue(d))))
  {
    SizeKeywords();
    KeywordThenStake(SizeWords, w, sp, d);
  }

  /** 大小单双: any size-and-parity keyword and stake. */
  lemma SizeParityAccepted(w: string, sp: string, d: string)
    requires w in SizeParityWords && AllSpaces(sp) && |d| > 0 && AllDigits(d)
    ensures MatchSizeParity(w + sp + d) == Some(Stake(SizeParity(Initials(w), DigitsValue(d))))
  {
    SizeParityKeywords();
    KeywordThenStake(SizeParityWords, w, sp, d);
  }

  /** 和值: any keyword, any target from 4 to 17 in decimal, and a stake. */
  lemma SumAccepted(w: string, sp1: string, v: nat, sp2: string, d: string)
    requires w in SumWords && AllSpaces(sp1) && AllSpaces(sp2) && 4 <= v <= 17
    requires |d| > 0 && AllDigits(d)
    ensures MatchSum(w + sp1 + Decimal(v) + sp2 + d) == Some(Stake(SumOfThree(Decimal(v), DigitsValue(d))))
  {
    KeywordThenSum(w, sp1, v, sp2, d);
  }

  lemma KeywordThenSum(w: string, sp1: string, v: nat, sp2: string, d: string)
    requires w in SumWords && AllSpaces(sp1) && AllSpaces(sp2) && 4 <= v <= 17
    requires |d| > 0 && AllDigits(d)
    ensures FirstAlt(SumWords, w + sp1 + Decimal(v) + sp2 + d, SumTail) == Some((w, (Decimal(v), d)))
  {
    SumKeywords();
    var rest := sp1 + (Decimal(v) + (sp2 + d));
    SumTailAccepts(sp1, v, sp2, d);
    Regroup5(w, sp1, Decimal(v), sp2, d);
    FirstAltKeyword(SumWords, w, rest, SumTail);
  }

  /** 对子: any pair keyword and stake. */
  lemma PairAccepted(w: string, sp: string, d: string)
    requires w in PairWords && AllSpaces(sp) && |d| > 0 && AllDigits(d)
    ensures MatchPair(w + sp + d) == Some(Stake(Pair(DigitsValue(d))))
  {
    PairKeywords();
    KeywordThenStake(PairWords, w, sp, d);
  }

  /** 指定对子: any pair keyword, a face, one space and a stake; the face is stored as a number. */
  lemma ExactPairAccepted(w: string, sp: string, f: char, d: string)
    requires w in PairWords && AllSpaces(sp) && '1' <= f <= '6' && |d| > 0 && AllDigits(d)
    ensures MatchExactPair(w + sp + [f] + " " + d) == Some(Stake(ExactPair(DigitValue(f), DigitsValue(d))))
  {
    PairKeywords();
    KeywordThenFace(PairWords, w, sp, f, d);
    SingleDigit(f);
  }

  /** `int` of a one-digit string is that digit's value. */
  lemma SingleDigit(c: char)
    requires IsDigit(c)
    ensures AllDigits([c]) && DigitsValue([c]) == DigitValue(c)
  {
    assert [c][..0] == [];
  }

  /** 顺子: any straight keyword and stake. */
  lemma StraightAccepted(w: string, sp: string, d: string)
    requires w in StraightWords && AllSpaces(sp) && |d| > 0 && AllDigits(d)
    ensures MatchStraight(w + sp + d) == Some(Stake(Straight(DigitsValue(d))))
  {
    StraightKeywords();
    KeywordThenStake(StraightWords, w, sp, d);
  }

  /** 豹子: any triple keyword and stake. */
  lemma TripleAccepted(w: string, sp: string, d: string)
    requires w in TripleWords && AllSpaces(sp) && |d| > 0 && AllDigits(d)
    ensures MatchTriple(w + sp + d) == Some(Stake(Triple(DigitsValue(d))))
  {
    TripleKeywords();
    KeywordThenStake(TripleWords, w, sp, d);
  }

  /** 指定豹子: any triple keyword, a face, one space and a stake; the face is kept as text. */
  lemma ExactTripleAccepted(w: string, sp: string, f: char, d: string)
    requires w in TripleWords && AllSpaces(sp) && '1' <= f <= '6' && |d| > 0 && AllDigits(d)
    ensures MatchExactTriple(w + sp + [f] + " " + d) == Some(Stake(ExactTriple([f], DigitsValue(d))))
  {
    TripleKeywords();
    KeywordThenFace(TripleWords, w, sp, f, d);
  }

  /** 定位胆: any keyword, a position, a face and a stake, each after optional padding. */
  lemma PositionAccepted(w: string, sp1: string, p: char, sp2: string, f: char, sp3: string, d: string)
    requires w in PositionWords && AllSpaces(sp1) && AllSpaces(sp2) && AllSpaces(sp3)
    requires '1' <= p <= '3' && '1' <= f <= '6' && |d| > 0 && AllDigits(d)
    ensures MatchPosition(w + sp1 + [p] + sp2 + [f] + sp3 + d)
      == Some(Stake(Position([p], [f], DigitsValue(d))))
  {
    KeywordThenPosition(w, sp1, p, sp2, f, sp3, d);
  }

  lemma KeywordThenPosition(w: string, sp1: string, p: char, sp2: string, f: char, sp3: string, d: string)
    requires w in PositionWords && AllSpaces(sp1) && AllSpaces(sp2) && AllSpaces(sp3)
    requires '1' <= p <= '3' && '1' <= f <= '6' && |d| > 0 && AllDigits(d)
    ensures FirstAlt(PositionWords, w + sp1 + [p] + sp2 + [f] + sp3 + d, PositionTail) == Some((w, ([p], [f], d)))
  {
    PositionKeywords();
    var rest := sp1 + ([p] + (sp2 + ([f] + (sp3 + d))));
    PositionTailAccepts(sp1, p, sp2, f, sp3, d);
    Regroup7(w, sp1, [p], sp2, [f], sp3, d);
    FirstAltKeyword(PositionWords, w, rest, PositionTail);
  }

  /** 定位胆y: a position, `y` and a stake, with optional padding around the `y`. */
  lemma PositionYAccepted(p: char, sp1: string, sp2: string, d: string)
    requires '1' <= p <= '3' && AllSpaces(sp1) && AllSpaces(sp2) && |d| > 0 && AllDigits(d)
    ensures MatchPositionY([p] + sp1 + "y" + sp2 + d) == Some(TextStake([p], d))
  {
    PositionYAccepts(p, sp1, sp2, d);
  }

  // Regrouping a message written left to right into keyword and tail.

  lemma Regroup3<T>(a: seq<T>, b: seq<T>, c: seq<T>)
    ensures a + b + c == a + (b + c)
  {
  }

  lemma Regroup5<T>(a: seq<T>, b: seq<T>, c: seq<T>, d: seq<T>, e: seq<T>)
    ensures a + b + c + d + e == a + (b + (c + (d + e)))
  {
  }

  lemma Regroup7<T>(a: seq<T>, b: seq<T>, c: seq<T>, d: seq<T>, e: seq<T>, f: seq<T>, g: seq<T>)
    ensures a + b + c + d + e + f + g == a + (b + (c + (d + (e + (f + g)))))
  {
    Regroup5(c, d, e, f, g);
    assert a + b + c + d + e + f + g == a + b + (c + (d + (e + (f + g))));
  }
}
