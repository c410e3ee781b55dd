/**
 * Network time synchronisation of a node: a fixed number of NTP queries per
 * cycle, the failed ones discarded, the truncated mean of the others published
 * as the clock offset, and the node's corrected "now" and its fixed-width text.
 * Durations and instants are integers counting nanoseconds (Go's
 * `time.Duration`); the NTP query is an input sequence of optional offsets.
 */
module SyncTime {
  import opened Wrappers
  import opened Sums
  import DecimalText

  /** Number of NTP queries issued by one synchronisation cycle. */
  const TotalRequests: nat := 10

  // ---------------------------------------------------------------------------
  // Go's int64 division
  // ---------------------------------------------------------------------------

  /**
   * Go's `int64 / int64` for a positive divisor: the quotient truncated toward
   * zero, so the remainder has the sign of the dividend (Dafny's `/` instead
   * rounds toward minus infinity here).
   */
  function TruncDiv(a: int, b: int): (q: int)
    requires b > 0
    ensures 0 <= a ==> 0 <= a - q * b < b
    ensures a < 0 ==> -b < a - q * b <= 0
  {
    if a >= 0 then a / b else -((-a) / b)
  }

  /** Truncation is symmetric around zero, unlike rounding toward minus infinity. */
  lemma TruncDivSymmetric(a: int, b: int)
    requires b > 0
    ensures TruncDiv(-a, b) == -TruncDiv(a, b)
  {
    if a == 0 {
      assert TruncDiv(0, b) == 0 / b == 0;
    }
  }

  /**
   * Where Go's quotient and Dafny's differ: they agree for a non-negative
   * dividend or an exact division; otherwise Go's is one greater (-7 / 2 is
   * -3 in Go and -4 in Dafny).
   */
  lemma TruncDivVersusFloor(a: int, b: int)
    requires b > 0
    ensures a >= 0 || a % b == 0 ==> TruncDiv(a, b) == a / b
    ensures a < 0 && a % b != 0 ==> TruncDiv(a, b) == a / b + 1
  {
    var q, t := a / b, TruncDiv(a, b);
    // a - q * b is Dafny's remainder, in [0, b); a - t * b is Go's, in (-b, 0] when a < 0
    if a < 0 {
      assert (t - q) * b == (a - q * b) - (a - t * b);
      if t < q {
        MulMonotone(t - q, -1, b);
        assert false;
      }
      if t > q + 1 {
        MulMonotone(2, t - q, b);
        assert false;
      }
      if a % b == 0 && t != q {
        assert false;
      }
      if a % b != 0 && t == q {
        assert false;
      }
    }
  }

  lemma MulMonotone(x: int, y: int, b: nat)
    requires x <= y
    ensures x * b <= y * b
  {
    var d := y - x;
    assert y * b == x * b + d * b;
  }

  /** A truncated quotient stays between any bounds that bracket the dividend. */
  lemma TruncDivWithin(a: int, b: int, lo: int, hi: int)
    requires b > 0
    requires lo * b <= a <= hi * b
    ensures lo <= TruncDiv(a, b) <= hi
  {
    var q := TruncDiv(a, b);
    if q < lo {
      MulMonotone(q, lo - 1, b);
      assert false;
    }
    if q > hi {
      MulMonotone(hi + 1, q, b);
      assert false;
    }
  }

  // ---------------------------------------------------------------------------
  // One synchronisation cycle, as a function of the query answers
  // ---------------------------------------------------------------------------

  /** The offsets of the queries that succeeded, in the order they were issued. */
  function Successes(answers: seq<Option<int>>): (r: seq<int>)
    ensures |r| <= |answers|
  {
    if answers == [] then []
    else
      var init := Successes(answers[..|answers| - 1]);
      var last := answers[|answers| - 1];
      if last.Some? then init + [last.value] else init
  }

  function Min(xs: seq<int>): (m: int)
    requires xs != []
    ensures m in xs && forall i :: 0 <= i < |xs| ==> m <= xs[i]
  {
    if |xs| == 1 then xs[0]
    else
      var m := Min(xs[..|xs| - 1]);
      if xs[|xs| - 1] < m then xs[|xs| - 1] else m
  }

  function Max(xs: seq<int>): (m: int)
    requires xs != []
    ensures m in xs && forall i :: 0 <= i < |xs| ==> xs[i] <= m
  {
    if |xs| == 1 then xs[0]
    else
      var m := Max(xs[..|xs| - 1]);
      if xs[|xs| - 1] > m then xs[|xs| - 1] else m
  }

  /**
   * The offset a cycle publishes: the truncated mean of the successful answers,
   * or nothing at all when every query failed.
   */
  function CycleMean(answers: seq<Option<int>>): (m: Option<int>)
    ensures m.None? <==> forall i :: 0 <= i < |answers| ==> answers[i].None?
    ensures m.Some? ==>
      Successes(answers) != [] && Min(Successes(answers)) <= m.value <= Max(Successes(answers))
  {
    var ok := Successes(answers);
    NoSuccessIffAllFail(answers);
    if |ok| > 0 then
      MeanWithinRange(ok);
      Some(TruncDiv(Sum(ok), |ok|))
    else
      None
  }

  /** A cycle has no successful answer exactly when every query failed. */
  lemma {:induction false} NoSuccessIffAllFail(answers: seq<Option<int>>)
    ensures |Successes(answers)| == 0 <==> forall i :: 0 <= i < |answers| ==> answers[i].None?
  {
    if answers != [] {
      var init := answers[..|answers| - 1];
      NoSuccessIffAllFail(init);
      assert forall i :: 0 <= i < |init| ==> init[i] == answers[i];
    }
  }

  lemma MulAddOne(n: int, m: int)
    ensures m * (n + 1) == m * n + m
  {
  }

  /** The sum of a non-empty sequence is at least |xs| times its minimum. */
  lemma {:induction false} SumAtLeast(xs: seq<int>)
    requires xs != []
    ensures Min(xs) * |xs| <= Sum(xs)
  {
    var init := xs[..|xs| - 1];
    if init == [] {
      assert xs == [xs[0]];
    } else {
      var n, m, last := |init|, Min(xs), xs[|xs| - 1];
      SumAtLeast(init);
      assert Sum(xs) == Sum(init) + last;
      assert m <= Min(init) && m <= last;
      MulMonotone(m, Min(init), n);
      MulAddOne(n, m);
      assert m * n == n * m;
    }
  }

  /** The sum of a non-empty sequence is at most |xs| times its maximum. */
  lemma {:induction false} SumAtMost(xs: seq<int>)
    requires xs != []
    ensures Sum(xs) <= Max(xs) * |xs|
  {
    var init := xs[..|xs| - 1];
    if init == [] {
      assert xs == [xs[0]];
    } else {
      var n, m, last := |init|, Max(xs), xs[|xs| - 1];
      SumAtMost(init);
      assert Sum(xs) == Sum(init) + last;
      assert Max(init) <= m && last <= m;
      MulMonotone(Max(init), m, n);
      MulAddOne(n, m);
    }
  }

  /** The truncated mean of a non-empty sequence lies between its minimum and maximum. */
  lemma MeanWithinRange(xs: seq<int>)
    requires xs != []
    ensures Min(xs) <= TruncDiv(Sum(xs), |xs|) <= Max(xs)
  {
    SumAtLeast(xs);
    SumAtMost(xs);
    TruncDivWithin(Sum(xs), |xs|, Min(xs), Max(xs));
  }

  /** A failed query contributes neither to the sum nor to the count of successes. */
  lemma {:induction false} FailureIgnored(before: seq<Option<int>>, after: seq<Option<int>>)
    ensures Successes(before + [None] + after) == Successes(before + after)
  {
    if after == [] {
      assert (before + [None] + after)[..|before| + 1 - 1] == before;
      assert before + after == before;
    } else {
      var init := after[..|after| - 1];
      FailureIgnored(before, init);
      assert (before + [None] + after)[..|before| + |after|] == before + [None] + init;
      assert (before + after)[..|before| + |after| - 1] == before + init;
    }
  }

  /** A failed query anywhere in a cycle does not change what the cycle publishes. */
  lemma FailureIgnoredByMean(before: seq<Option<int>>, after: seq<Option<int>>)
    ensures CycleMean(before + [None] + after) == CycleMean(before + after)
  {
    FailureIgnored(before, after);
  }

  // ---------------------------------------------------------------------------
  // Fixed-width time text
  // ---------------------------------------------------------------------------

  /** The calendar fields of an instant, as Go's `time.Time` accessors give them. */
  datatype DateTime = DateTime(year: int, month: int, day: int, hour: int,
                               minute: int, second: int, nanosecond: int)

  /** The text of one `%.<width>d` verb of a format string and the literal character after it. */
  datatype Piece = Piece(text: string, separator: char)

  /** The pieces one after the other, each followed by its separator. */
  function Join(pieces: seq<Piece>): string {
    if pieces == [] then [] else pieces[0].text + [pieces[0].separator] + Join(pieces[1..])
  }

  /** Where the k-th piece begins in `Join(pieces)`. */
  function Start(pieces: seq<Piece>, k: nat): nat
    requires k <= |pieces|
  {
    if k == 0 then 0 else Start(pieces, k - 1) + |pieces[k - 1].text| + 1
  }

  lemma {:induction false} StartShift(pieces: seq<Piece>, k: nat)
    requires 1 <= k <= |pieces|
    ensures Start(pieces, k) == |pieces[0].text| + 1 + Start(pieces[1..], k - 1)
  {
    if k > 1 {
      StartShift(pieces, k - 1);
      assert pieces[1..][k - 2] == pieces[k - 1];
    }
  }

  /** The joined text is as long as the pieces plus one separator each. */
  lemma {:induction false} JoinLength(pieces: seq<Piece>)
    ensures |Join(pieces)| == Start(pieces, |pieces|)
  {
    if pieces != [] {
      JoinLength(pieces[1..]);
      StartShift(pieces, |pieces|);
    }
  }

  /** A piece found at `lo` in `rest` is found at `|head| + lo` in `head + rest`. */
  lemma ShiftPiece(head: string, rest: string, lo: nat, text: string, sep: char)
    requires lo + |text| < |rest|
    requires rest[lo..lo + |text|] == text && rest[lo + |text|] == sep
    ensures |head| + lo + |text| < |head + rest|
    ensures (head + rest)[|head| + lo..|head| + lo + |text|] == text
    ensures (head + rest)[|head| + lo + |text|] == sep
  {
    assert (head + rest)[|head| + lo..|head| + lo + |text|] == rest[lo..lo + |text|];
  }

  /** The k-th piece and its separator sit at `Start(pieces, k)` in the joined text. */
  lemma {:induction false} JoinPiece(pieces: seq<Piece>, k: nat)
    requires k < |pieces|
    ensures Start(pieces, k) + |pieces[k].text| < |Join(pieces)|
    ensures Join(pieces)[Start(pieces, k)..Start(pieces, k) + |pieces[k].text|] == pieces[k].text
    ensures Join(pieces)[Start(pieces, k) + |pieces[k].text|] == pieces[k].separator
  {
    var text, sep := pieces[0].text, pieces[0].separator;
    var tail := pieces[1..];
    var rest := Join(tail);
    if k == 0 {
      assert Join(pieces) == text + ([sep] + rest);
      ShiftPiece([], text + ([sep] + rest), 0, text, sep);
    } else {
      var head := text + [sep];
      assert Join(pieces) == head + rest;
      JoinPiece(tail, k - 1);
      StartShift(pieces, k);
      assert tail[k - 1] == pieces[k];
      ShiftPiece(head, rest, Start(tail, k - 1), pieces[k].text, pieces[k].separator);
    }
  }

  /**
   * The node's timestamp text, `%.4d-%.2d-%.2d %.2d:%.2d:%.2d.%.9d `: each
   * calendar field zero-padded to its width (wider values keep all their
   * digits, negative ones get a leading '-'), with a trailing space.
   */
  function FormatTime(t: DateTime): (s: string)
    ensures FitsLayout(t) ==>
      |s| == 30 && LayoutSeparators(s) && LayoutDigits(s) && ParseLayout(s) == t
  {
    var s := Join(TimePieces(t));
    if FitsLayout(t) then TimePiecesLayout(t); s else s
  }

  function TimePieces(t: DateTime): (ps: seq<Piece>)
    ensures |ps| == 7
  {
    [Piece(DecimalText.Padded(t.year, 4), '-'), Piece(DecimalText.Padded(t.month, 2), '-'),
     Piece(DecimalText.Padded(t.day, 2), ' '), Piece(DecimalText.Padded(t.hour, 2), ':'),
     Piece(DecimalText.Padded(t.minute, 2), ':'), Piece(DecimalText.Padded(t.second, 2), '.'),
     Piece(DecimalText.Padded(t.nanosecond, 9), ' ')]
  }

  /** Where each field of the layout begins when it fits its width. */
  lemma TimePiecesStart(t: DateTime)
    requires FitsLayout(t)
    ensures Start(TimePieces(t), 1) == 5 && Start(TimePieces(t), 2) == 8
    ensures Start(TimePieces(t), 3) == 11 && Start(TimePieces(t), 4) == 14
    ensures Start(TimePieces(t), 5) == 17 && Start(TimePieces(t), 6) == 20
    ensures Start(TimePieces(t), 7) == 30
  {
    var ps := TimePieces(t);
    assert DecimalText.Pow10(2) == 100 && DecimalText.Pow10(4) == 10_000;
    assert DecimalText.Pow10(9) == 1_000_000_000;
    assert |ps[0].text| == 4 && |ps[6].text| == 9;
    assert |ps[1].text| == 2 && |ps[2].text| == 2 && |ps[3].text| == 2;
    assert |ps[4].text| == 2 && |ps[5].text| == 2;
    assert Start(ps, 0) == 0;
    assert Start(ps, 1) == 5;
    assert Start(ps, 2) == 8;
    assert Start(ps, 3) == 11;
    assert Start(ps, 4) == 14;
    assert Start(ps, 5) == 17;
    assert Start(ps, 6) == 20;
  }

  /** Every field is non-negative and fits its width: a year of at most four digits. */
  predicate FitsLayout(t: DateTime) {
    && 0 <= t.year < 10000 && 0 <= t.month < 100 && 0 <= t.day < 100
    && 0 <= t.hour < 100 && 0 <= t.minute < 100 && 0 <= t.second < 100
    && 0 <= t.nanosecond < 1_000_000_000
  }

  /** The separators of the 30-character layout, at their fixed positions. */
  predicate LayoutSeparators(s: string)
    requires |s| == 30
  {
    s[4] == '-' && s[7] == '-' && s[10] == ' ' && s[13] == ':' && s[16] == ':'
    && s[19] == '.' && s[29] == ' '
  }

  predicate LayoutDigits(s: string)
    requires |s| == 30
  {
    && DecimalText.AllDigits(s[0..4]) && DecimalText.AllDigits(s[5..7])
    && DecimalText.AllDigits(s[8..10]) && DecimalText.AllDigits(s[11..13])
    && DecimalText.AllDigits(s[14..16]) && DecimalText.AllDigits(s[17..19])
    && DecimalText.AllDigits(s[20..29])
  }

  /** Reads the seven fields back out of the 30-character layout. */
  function ParseLayout(s: string): DateTime
    requires |s| == 30 && LayoutDigits(s)
  {
    DateTime(DecimalText.Parse(s[0..4]), DecimalText.Parse(s[5..7]),
             DecimalText.Parse(s[8..10]), DecimalText.Parse(s[11..13]),
             DecimalText.Parse(s[14..16]), DecimalText.Parse(s[17..19]),
             DecimalText.Parse(s[20..29]))
  }

  /**
   * For fields that fit their widths the text is exactly 30 characters, the
   * separators sit at fixed positions, and the fields read back unchanged.
   */
  lemma TimePiecesLayout(t: DateTime)
    requires FitsLayout(t)
    ensures |Join(TimePieces(t))| == 30
    ensures LayoutSeparators(Join(TimePieces(t))) && LayoutDigits(Join(TimePieces(t)))
    ensures ParseLayout(Join(TimePieces(t))) == t
  {
    var ps := TimePieces(t);
    TimePiecesStart(t);
    JoinLength(ps);
    JoinPiece(ps, 0);
    JoinPiece(ps, 1);
    JoinPiece(ps, 2);
    JoinPiece(ps, 3);
    JoinPiece(ps, 4);
    JoinPiece(ps, 5);
    JoinPiece(ps, 6);
  }

  // ---------------------------------------------------------------------------
  // The synchronisation object
  // ---------------------------------------------------------------------------

  class SyncTime {
    /** The published offset (network time minus local time). */
    var clockOffset: int
    /** Pause between two cycles of the background loop. */
    var syncPeriod: int
    /** Whether a query function is installed (the Go field `query` is not nil). */
    var hasQuery: bool

    /** A fresh object: offset zero, the given period, the NTP client installed. */
    constructor (syncPeriod: int)
      ensures this.clockOffset == 0 && this.syncPeriod == syncPeriod && hasQuery
    {
      this.clockOffset := 0;
      this.syncPeriod := syncPeriod;
      this.hasQuery := true;
    }

    /**
     * One synchronisation cycle. `answers[i]` is what the i-th query returns.
     * With a query installed, all TotalRequests queries are issued; the
     * truncated mean of the successful offsets is published when there is at
     * least one, and otherwise the offset is left as it was.
     */
    method Sync(answers: seq<Option<int>>) returns (issued: nat)
      requires |answers| == TotalRequests
      modifies this`clockOffset
      ensures issued == if hasQuery then TotalRequests else 0
      ensures hasQuery && CycleMean(answers).Some? ==> clockOffset == CycleMean(answers).value
      ensures !hasQuery || CycleMean(answers).None? ==> clockOffset == old(clockOffset)
    {
      issued := 0;
      if hasQuery {
        var clockOffsetSum := 0;
        var succeededRequests := 0;
        for i := 0 to TotalRequests
          invariant issued == i
          invariant clockOffsetSum == Sum(Successes(answers[..i]))
          invariant succeededRequests == |Successes(answers[..i])|
        {
          var r := answers[i];
          issued := issued + 1;
          assert answers[..i + 1][..i] == answers[..i];
          if r.None? {
            continue;
          }
          succeededRequests := succeededRequests + 1;
          clockOffsetSum := clockOffsetSum + r.value;
        }
        assert answers[..TotalRequests] == answers;
        if succeededRequests > 0 {
          SetClockOffset(TruncDiv(clockOffsetSum, succeededRequests));
        }
      }
    }

    /** Reads the published offset. */
    method ClockOffset() returns (offset: int)
      ensures offset == clockOffset
    {
      offset := clockOffset;
    }

    /** Publishes a new offset; nothing else changes. */
    method SetClockOffset(offset: int)
      modifies this`clockOffset
      ensures clockOffset == offset
    {
      clockOffset := offset;
    }

    /** The corrected time: the local clock reading `now` moved by the offset. */
    function CurrentTime(now: int): (t: int)
      reads this
      ensures t - now == clockOffset
    {
      now + clockOffset
    }

    /**
     * The corrected time as text; `calendar` splits an instant into its
     * calendar fields. For fields that fit the layout the text is 30
     * characters and reads back to those fields.
     */
    function FormattedCurrentTime(now: int, calendar: int -> DateTime): (s: string)
      reads this
      ensures FitsLayout(calendar(CurrentTime(now))) ==>
        |s| == 30 && LayoutSeparators(s) && LayoutDigits(s) && ParseLayout(s) == calendar(CurrentTime(now))
    {
      FormatTime(calendar(CurrentTime(now)))
    }
  }

  /** The successes of a cycle split anywhere are those of the two parts, in order. */
  lemma {:induction false} SuccessesAppend(a: seq<Option<int>>, b: seq<Option<int>>)
    ensures Successes(a + b) == Successes(a) + Successes(b)
  {
    if b == [] {
      assert a + b == a;
    } else {
      var init := b[..|b| - 1];
      SuccessesAppend(a, init);
      assert (a + b)[..|a + b| - 1] == a + init;
    }
  }

  lemma SuccessesSnoc(s: seq<Option<int>>, x: Option<int>)
    ensures Successes(s + [x]) == Successes(s) + if x.Some? then [x.value] else []
  {
    assert (s + [x])[..|s|] == s;
  }

  lemma ScenarioSuccesses(answers: seq<Option<int>>)
    requires answers == [Some(50), None, None, Some(60), None, None, None, Some(70), None, None]
    ensures Successes(answers) == [50, 60, 70]
  {
    var a: seq<Option<int>> := [Some(50)];
    assert a[..0] == [];
    assert Successes(a) == [50];
    SuccessesSnoc(a, None); a := a + [None];
    SuccessesSnoc(a, None); a := a + [None];
    SuccessesSnoc(a, Some(60)); a := a + [Some(60)];
    SuccessesSnoc(a, None); a := a + [None];
    SuccessesSnoc(a, None); a := a + [None];
    SuccessesSnoc(a, None); a := a + [None];
    SuccessesSnoc(a, Some(70)); a := a + [Some(70)];
    SuccessesSnoc(a, None); a := a + [None];
    SuccessesSnoc(a, None); a := a + [None];
    assert a == answers;
  }

  /** Three of ten answers succeed, with 50, 60 and 70: the cycle publishes 60. */
  lemma ScenarioMean(answers: seq<Option<int>>)
    requires answers == [Some(50), None, None, Some(60), None, None, None, Some(70), None, None]
    ensures CycleMean(answers) == Some(60)
  {
    ScenarioSuccesses(answers);
    var ok := [50, 60, 70];
    assert Successes(answers) == ok;
    var ok1, ok2 := [50], [50, 60];
    assert ok1[..0] == [] && ok2[..1] == ok1 && ok[..2] == ok2;
    assert Sum(ok1) == 50;
    assert Sum(ok2) == 110;
    assert Sum(ok) == 180;
  }

  /**
   * The documented scenario: three of ten queries succeed with 50, 60 and 70
   * (ms), so 60 is published; a following cycle where all ten fail keeps it.
   * Before any cycle the offset is 0 and the corrected time is the local one.
   */
  method SyncScenario(now: int) returns (initial: int, before: int, first: int, second: int)
    ensures initial == 0 && before == now
    ensures first == 60 && second == 60
  {
    var s := new SyncTime(1000);
    initial := s.ClockOffset();
    before := s.CurrentTime(now);
    var answers: seq<Option<int>> := [Some(50), None, None, Some(60), None, None, None, Some(70), None, None];
    ScenarioMean(answers);
    var issued := s.Sync(answers);
    first := s.ClockOffset();
    var failures: seq<Option<int>> := [None, None, None, None, None, None, None, None, None, None];
    assert failures[0].None?;
    issued := s.Sync(failures);
    second := s.ClockOffset();
  }
}
