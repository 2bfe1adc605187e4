/** The bandwidth meter: bytes gathered over a window of at least a minimum span, then divided out. */
module BandWidth {
  import opened Options

  const DEFAULT_MIN_SPAN_MS: u64 := 1000

  type u64 = n: nat | n <= 0xFFFF_FFFF_FFFF_FFFF

  datatype Meter = Meter(created: u64, begin: u64, bytesTotal: nat, bytesPerSecond: nat)

  const NEW := Meter(0, 0, 0, 0)

  /** The start of the window that a call at `now` belongs to. */
  function WindowBegin(m: Meter, now: u64): u64 {
    if m.begin == 0 then now else m.begin
  }

  /** `now - begin` on u64, which wraps around when the clock has gone back. */
  function Elapsed(m: Meter, now: u64): u64 {
    var begin := WindowBegin(m, now);
    if begin <= now then now - begin else now + 0x1_0000_0000_0000_0000 - begin
  }

  /** The call closes the window and divides by zero seconds. */
  predicate Panics(m: Meter, minSpanMs: u64, now: u64) {
    minSpanMs <= Elapsed(m, now) < 1000
  }

  /** The meter with the bytes counted in the open window, before any division. */
  function Counted(m: Meter, byteLen: nat, now: u64): Meter {
    m.(begin := WindowBegin(m, now), bytesTotal := m.bytesTotal + byteLen)
  }

  function Added(m: Meter, minSpanMs: u64, byteLen: nat, now: u64): Meter
    requires !Panics(m, minSpanMs, now)
  {
    var ms := Elapsed(m, now);
    if ms < minSpanMs then Counted(m, byteLen, now)
    else Meter(now, 0, 0, (m.bytesTotal + byteLen) / (ms / 1000))
  }

  class BandWidth {
    var created: u64
    var begin: u64
    var bytesTotal: nat
    var bytesPerSecond: nat
    const minSpanMs: u64

    constructor ()
      ensures View() == NEW && this.minSpanMs == DEFAULT_MIN_SPAN_MS
    {
      this.minSpanMs := DEFAULT_MIN_SPAN_MS;
      created, begin, bytesTotal, bytesPerSecond := 0, 0, 0, 0;
    }

    constructor WithMinSpan(minSpanMs: u64)
      ensures View() == NEW && this.minSpanMs == minSpanMs
    {
      this.minSpanMs := minSpanMs;
      created, begin, bytesTotal, bytesPerSecond := 0, 0, 0, 0;
    }

    function View(): Meter
      reads this
    {
      Meter(created, begin, bytesTotal, bytesPerSecond)
    }

    /** A call that panics has counted its bytes and left the rest as it was. */
    method AddBytes(byteLen: nat, now: u64) returns (panicked: bool)
      modifies this
      ensures panicked <==> Panics(old(View()), minSpanMs, now)
      ensures panicked ==> View() == Counted(old(View()), byteLen, now)
      ensures !panicked ==> View() == Added(old(View()), minSpanMs, byteLen, now)
    {
      if begin == 0 {
        begin := now;
      }
      bytesTotal := bytesTotal + byteLen;
      var ms := if begin <= now then now - begin else now + 0x1_0000_0000_0000_0000 - begin;
      if ms < minSpanMs {
        return false;
      }
      if ms / 1000 == 0 {
        return true;
      }
      bytesPerSecond := bytesTotal / (ms / 1000);
      created := now;
      begin := 0;
      bytesTotal := 0;
      return false;
    }
  }

  /** One call of the meter. */
  datatype Call = Call(byteLen: nat, now: u64)

  /** A closed window as the meter has it: its bytes, its begin, the clock that closed it, and the reported rate. */
  datatype Window = Window(bytes: nat, begin: u64, end: u64, rate: nat)

  /** A meter with the windows it has closed so far. */
  datatype History = History(meter: Meter, closed: seq<Window>)

  /** One call; None when it panics. */
  function Record(h: History, minSpanMs: u64, c: Call): Option<History> {
    if Panics(h.meter, minSpanMs, c.now) then None
    else
      var m := Added(h.meter, minSpanMs, c.byteLen, c.now);
      if Elapsed(h.meter, c.now) < minSpanMs then Some(History(m, h.closed))
      else
        var w := Window(h.meter.bytesTotal + c.byteLen, WindowBegin(h.meter, c.now), c.now, m.bytesPerSecond);
        Some(History(m, h.closed + [w]))
  }

  function Run(minSpanMs: u64, calls: seq<Call>): Option<History> {
    if calls == [] then Some(History(NEW, []))
    else
      match Run(minSpanMs, calls[..|calls| - 1])
      case None => None
      case Some(h) => Record(h, minSpanMs, calls[|calls| - 1])
  }

  /** The clocks do not go back. */
  predicate ClocksAscend(calls: seq<Call>) {
    forall i, j :: 0 <= i < j < |calls| ==> calls[i].now <= calls[j].now
  }

  predicate ClocksPositive(calls: seq<Call>) {
    forall i :: 0 <= i < |calls| ==> calls[i].now > 0
  }

  // ----- how calls fall into windows, without a meter -----

  /** Calls cut into pieces, and those after the last piece. */
  datatype Cut = Cut(pieces: seq<seq<Call>>, open: seq<Call>)

  /** A piece ends with the first call that is the minimum span or more after the piece's first one. */
  function Extended(minSpanMs: u64, cut: Cut, c: Call): Cut {
    var open := cut.open + [c];
    if c.now - open[0].now < minSpanMs then Cut(cut.pieces, open) else Cut(cut.pieces + [open], [])
  }

  function CutUp(minSpanMs: u64, calls: seq<Call>): Cut {
    if calls == [] then Cut([], [])
    else Extended(minSpanMs, CutUp(minSpanMs, calls[..|calls| - 1]), calls[|calls| - 1])
  }

  function Join(pieces: seq<seq<Call>>): seq<Call> {
    if pieces == [] then [] else Join(pieces[..|pieces| - 1]) + pieces[|pieces| - 1]
  }

  /** All these calls come less than the minimum span after the first. */
  predicate Within(minSpanMs: u64, cs: seq<Call>) {
    forall i :: 0 <= i < |cs| ==> cs[i].now - cs[0].now < minSpanMs
  }

  predicate IsPiece(minSpanMs: u64, cs: seq<Call>) {
    cs != [] && Within(minSpanMs, cs[..|cs| - 1]) && cs[|cs| - 1].now - cs[0].now >= minSpanMs
  }

  /** The calls, whole and in order, in pieces that end where they must. */
  ghost predicate CutsRight(minSpanMs: u64, cut: Cut, calls: seq<Call>) {
    && Join(cut.pieces) + cut.open == calls
    && (forall p :: p in cut.pieces ==> IsPiece(minSpanMs, p))
    && Within(minSpanMs, cut.open)
  }

  lemma JoinMore(pieces: seq<seq<Call>>, p: seq<Call>)
    ensures Join(pieces + [p]) == Join(pieces) + p
  {
    assert (pieces + [p])[..|pieces|] == pieces;
  }

  lemma Associate<T>(a: seq<T>, b: seq<T>, c: seq<T>)
    ensures a + b + c == a + (b + c)
    ensures a + [] == a
  {
  }

  lemma OpenShape(minSpanMs: u64, open: seq<Call>, c: Call)
    requires Within(minSpanMs, open)
    ensures c.now - (open + [c])[0].now < minSpanMs ==> Within(minSpanMs, open + [c])
    ensures c.now - (open + [c])[0].now >= minSpanMs ==> IsPiece(minSpanMs, open + [c])
  {
    assert (open + [c])[..|open + [c]| - 1] == open;
  }

  lemma ExtendedRight(minSpanMs: u64, cut: Cut, calls: seq<Call>, c: Call)
    requires minSpanMs > 0 && CutsRight(minSpanMs, cut, calls)
    ensures CutsRight(minSpanMs, Extended(minSpanMs, cut, c), calls + [c])
  {
    OpenShape(minSpanMs, cut.open, c);
    JoinMore(cut.pieces, cut.open + [c]);
    Associate(Join(cut.pieces), cut.open, [c]);
    Associate(Join(cut.pieces + [cut.open + [c]]), cut.open, [c]);
    hide Join, IsPiece;
    assert Within(minSpanMs, []);
  }

  /** Nothing is left out and nothing counted twice, and every piece ends where it must. */
  lemma {:induction false} CutUpMeaning(minSpanMs: u64, calls: seq<Call>)
    requires minSpanMs > 0
    ensures CutsRight(minSpanMs, CutUp(minSpanMs, calls), calls)
  {
    if calls != [] {
      var init, c := calls[..|calls| - 1], calls[|calls| - 1];
      CutUpMeaning(minSpanMs, init);
      assert calls == init + [c];
      hide CutsRight, Extended;
      ExtendedRight(minSpanMs, CutUp(minSpanMs, init), init, c);
    }
  }

  function AllBytes(calls: seq<Call>): nat {
    if calls == [] then 0 else AllBytes(calls[..|calls| - 1]) + calls[|calls| - 1].byteLen
  }

  function ClosedBytes(closed: seq<Window>): nat {
    if closed == [] then 0 else ClosedBytes(closed[..|closed| - 1]) + closed[|closed| - 1].bytes
  }

  /** Bytes per second over the time between the window's first and last call. */
  function TrueRate(w: Window): real
    requires w.begin < w.end
  {
    (w.bytes * 1000) as real / (w.end - w.begin) as real
  }

  /** The rate is the number of whole bytes in each whole second. */
  predicate WholeRate(bytes: nat, ms: nat, rate: nat) {
    rate * (ms / 1000) <= bytes < (rate + 1) * (ms / 1000)
  }

  /** The reported rate is below the true one by less than 1, and less than twice as large. */
  ghost predicate RateOk(w: Window) {
    && w.begin + 1000 <= w.end
    && WholeRate(w.bytes, w.end - w.begin, w.rate)
    && (w.bytes > 0 ==> TrueRate(w) - 1.0 < w.rate as real < 2.0 * TrueRate(w))
    && (w.bytes == 0 ==> w.rate == 0)
  }

  lemma Regroup(a: nat, k: nat, q: nat)
    ensures a * (k * q) == k * (a * q)
  {
  }

  lemma Quotient(bytes: nat, q: nat)
    requires q > 0
    ensures bytes / q * q <= bytes < (bytes / q + 1) * q
  {
    assert bytes == bytes / q * q + bytes % q;
    assert (bytes / q + 1) * q == bytes / q * q + q;
  }

  lemma DivideRate(bytes: nat, ms: nat, b: nat)
    requires ms >= 1000 && bytes > 0 && WholeRate(bytes, ms, b)
    ensures (b + 1) * ms > bytes * 1000
    ensures b * ms < 2 * (bytes * 1000)
  {
    var q := ms / 1000;
    assert 1000 * q <= ms < 2000 * q;
    Scaled(b + 1, 1000 * q, ms);
    Regroup(b + 1, 1000, q);
    Scaled(b, ms + 1, 2000 * q);
    Regroup(b, 2000, q);
    assert b * (ms + 1) == b * ms + b;
  }

  lemma Scaled(a: nat, b: nat, c: nat)
    requires b <= c
    ensures a * b <= a * c
  {
    assert a * c == a * b + a * (c - b);
  }

  lemma {:induction false} CastProduct(a: nat, b: nat)
    ensures (a * b) as real == a as real * b as real
  {
    if a > 0 {
      CastProduct(a - 1, b);
      assert a * b == (a - 1) * b + b;
      assert (a - 1) as real == a as real - 1.0;
    }
  }

  lemma Cancel(a: real, b: real, y: real)
    requires y > 0.0 && a * y < b * y
    ensures a < b
  {
    assert (b - a) * y > 0.0;
  }

  lemma RealBounds(w: Window, ms: nat)
    requires w.begin < w.end && ms == w.end - w.begin
    requires (w.rate + 1) * ms > w.bytes * 1000 && w.rate * ms < 2 * (w.bytes * 1000)
    ensures TrueRate(w) - 1.0 < w.rate as real < 2.0 * TrueRate(w)
  {
    var x, y, z := (w.bytes * 1000) as real, ms as real, w.rate as real;
    CastProduct(w.rate + 1, ms);
    CastProduct(w.rate, ms);
    var r := TrueRate(w);
    assert r * y == x;
    Cancel(r, z + 1.0, y);
    assert 2.0 * r * y == 2.0 * x;
    Cancel(z, 2.0 * r, y);
  }

  lemma ClosedRateOk(w: Window)
    requires w.begin + 1000 <= w.end && w.rate == w.bytes / ((w.end - w.begin) / 1000)
    ensures RateOk(w)
  {
    Quotient(w.bytes, (w.end - w.begin) / 1000);
    assert WholeRate(w.bytes, w.end - w.begin, w.rate);
    if w.bytes > 0 {
      hide WholeRate, TrueRate;
      DivideRate(w.bytes, w.end - w.begin, w.rate);
      RealBounds(w, w.end - w.begin);
    }
  }

  /** No byte is lost, and the meter shows the rate of the last closed window. */
  ghost predicate Accounts(h: History, calls: seq<Call>) {
    && ClosedBytes(h.closed) + h.meter.bytesTotal == AllBytes(calls)
    && h.meter.bytesPerSecond == (if h.closed == [] then 0 else h.closed[|h.closed| - 1].rate)
    && h.meter.created == (if h.closed == [] then 0 else h.closed[|h.closed| - 1].end)
  }

  lemma RecordAccounts(h: History, minSpanMs: u64, calls: seq<Call>, c: Call)
    requires Accounts(h, calls) && Record(h, minSpanMs, c).Some?
    ensures Accounts(Record(h, minSpanMs, c).value, calls + [c])
  {
    assert (calls + [c])[..|calls|] == calls;
    var h' := Record(h, minSpanMs, c).value;
    if h'.closed != h.closed {
      assert h'.closed[..|h.closed|] == h.closed;
    }
  }

  /** On any clocks, calls that do not panic lose no byte. */
  lemma {:induction false} RunAccounts(minSpanMs: u64, calls: seq<Call>)
    requires Run(minSpanMs, calls).Some?
    ensures Accounts(Run(minSpanMs, calls).value, calls)
  {
    if calls != [] {
      var init, c := calls[..|calls| - 1], calls[|calls| - 1];
      RunAccounts(minSpanMs, init);
      RecordAccounts(Run(minSpanMs, init).value, minSpanMs, init, c);
      assert init + [c] == calls;
    }
  }

  /** The window's bytes, begin and end are those of these calls. */
  ghost predicate Covers(w: Window, cs: seq<Call>) {
    cs != [] && w.bytes == AllBytes(cs) && w.begin == cs[0].now && w.end == cs[|cs| - 1].now
  }

  /** The closed windows are the pieces, one for one, and the open window holds the rest. */
  ghost predicate Follows(h: History, cut: Cut) {
    && |h.closed| == |cut.pieces|
    && (forall k :: 0 <= k < |cut.pieces| ==> Covers(h.closed[k], cut.pieces[k]))
    && h.meter.bytesTotal == AllBytes(cut.open)
    && h.meter.begin == if cut.open == [] then 0 else cut.open[0].now
  }

  lemma MoreBytes(cs: seq<Call>, c: Call)
    ensures AllBytes(cs + [c]) == AllBytes(cs) + c.byteLen
  {
    assert (cs + [c])[..|cs|] == cs;
  }

  lemma RecordFollows(h: History, minSpanMs: u64, cut: Cut, c: Call)
    requires minSpanMs >= 1000 && Follows(h, cut)
    requires c.now > 0 && forall i :: 0 <= i < |cut.open| ==> 0 < cut.open[i].now <= c.now
    ensures Record(h, minSpanMs, c).Some? && Follows(Record(h, minSpanMs, c).value, Extended(minSpanMs, cut, c))
    ensures forall w :: w in Record(h, minSpanMs, c).value.closed ==> w in h.closed || RateOk(w)
  {
    MoreBytes(cut.open, c);
    var open := cut.open + [c];
    assert Elapsed(h.meter, c.now) == c.now - open[0].now;
    hide AllBytes, RateOk;
    if c.now - open[0].now >= minSpanMs {
      var w := Record(h, minSpanMs, c).value.closed[|h.closed|];
      assert w.rate == w.bytes / ((w.end - w.begin) / 1000);
      ClosedRateOk(w);
      assert AllBytes([]) == 0 by { NoBytes(); }
    }
  }

  lemma NoBytes()
    ensures AllBytes([]) == 0
  {
  }

  /** On positive clocks that do not go back, and with a minimum span of a second, the closed windows are the pieces
      of the calls, and every reported rate is bounded by the true rate of its piece. */
  lemma {:induction false} RatesBounded(minSpanMs: u64, calls: seq<Call>)
    requires minSpanMs >= 1000 && ClocksAscend(calls) && ClocksPositive(calls)
    ensures Run(minSpanMs, calls).Some? && Follows(Run(minSpanMs, calls).value, CutUp(minSpanMs, calls))
    ensures forall w :: w in Run(minSpanMs, calls).value.closed ==> RateOk(w)
  {
    if calls != [] {
      var init, c := calls[..|calls| - 1], calls[|calls| - 1];
      RatesBounded(minSpanMs, init);
      var cut := CutUp(minSpanMs, init);
      OpenIsSuffix(minSpanMs, init);
      forall i | 0 <= i < |cut.open| ensures 0 < cut.open[i].now <= c.now {
        assert cut.open[i] in init;
        var k :| 0 <= k < |init| && init[k] == cut.open[i];
        assert calls[k] == init[k];
      }
      hide Follows, Extended, RateOk, Record;
      RecordFollows(Run(minSpanMs, init).value, minSpanMs, cut, c);
    }
  }

  /** The calls of the open window are the last ones. */
  lemma OpenIsSuffix(minSpanMs: u64, calls: seq<Call>)
    requires minSpanMs > 0
    ensures forall c :: c in CutUp(minSpanMs, calls).open ==> c in calls
  {
    CutUpMeaning(minSpanMs, calls);
    var cut := CutUp(minSpanMs, calls);
    assert calls == Join(cut.pieces) + cut.open;
  }

  // ----- clocks that start at zero -----

  /** A meter that is first called at clock 0 forgets that call's time with the first later call. */
  ghost predicate Forgot(h: History, last: u64) {
    if last == 0 then h.closed == [] && h.meter.begin == 0
    else if h.closed == [] then h.meter.begin > 0
    else h.closed[0].begin > 0
  }

  lemma {:induction false} ZeroForgotten(minSpanMs: u64, calls: seq<Call>)
    requires minSpanMs >= 1000 && calls != [] && ClocksAscend(calls)
    ensures Run(minSpanMs, calls).Some? && (calls[0].now == 0 ==> Forgot(Run(minSpanMs, calls).value, calls[|calls| - 1].now))
  {
    LongSpanRuns(minSpanMs, calls);
    var init := calls[..|calls| - 1];
    LongSpanRuns(minSpanMs, init);
    if init == [] {
      assert Run(minSpanMs, init) == Some(History(NEW, []));
    } else {
      ZeroForgotten(minSpanMs, init);
    }
  }

  lemma {:induction false} FirstInFront(minSpanMs: u64, calls: seq<Call>)
    requires calls != []
    ensures var cut := CutUp(minSpanMs, calls);
            if cut.pieces == [] then cut.open == calls else cut.pieces[0] != [] && cut.pieces[0][0] == calls[0]
  {
    var init := calls[..|calls| - 1];
    if init != [] {
      FirstInFront(minSpanMs, init);
    }
    assert calls == init + [calls[|calls| - 1]];
  }

  lemma ForgetsNotFollows(h: History, cut: Cut, calls: seq<Call>, last: u64)
    requires Forgot(h, last) && last > 0 && calls != [] && calls[0].now == 0
    requires if cut.pieces == [] then cut.open == calls else cut.pieces[0] != [] && cut.pieces[0][0] == calls[0]
    ensures !Follows(h, cut)
  {
    hide AllBytes;
    assert h.closed != [] && cut.pieces != [] ==> !Covers(h.closed[0], cut.pieces[0]);
  }

  lemma ZeroFollows(h: History, calls: seq<Call>)
    requires Forgot(h, 0) && Accounts(h, calls) && calls != [] && calls[0].now == 0
    ensures Follows(h, Cut([], calls))
  {
    assert ClosedBytes([]) == 0;
    hide AllBytes;
  }

  /** The meter follows the calls, on clocks that do not go back, exactly when the first clock is not zero or all are. */
  lemma FollowsExactly(minSpanMs: u64, calls: seq<Call>)
    requires minSpanMs >= 1000 && ClocksAscend(calls)
    ensures Run(minSpanMs, calls).Some?
    ensures Follows(Run(minSpanMs, calls).value, CutUp(minSpanMs, calls)) <==>
            calls == [] || calls[0].now > 0 || calls[|calls| - 1].now == 0
  {
    LongSpanRuns(minSpanMs, calls);
    if calls == [] || calls[0].now > 0 {
      RatesBounded(minSpanMs, calls);
    } else {
      ZeroForgotten(minSpanMs, calls);
      FirstInFront(minSpanMs, calls);
      hide Run, CutUp, Follows, Accounts, Forgot;
      var h, last := Run(minSpanMs, calls).value, calls[|calls| - 1].now;
      if last == 0 {
        AllWithin(minSpanMs, calls);
        RunAccounts(minSpanMs, calls);
        ZeroFollows(h, calls);
      } else {
        ForgetsNotFollows(h, CutUp(minSpanMs, calls), calls, last);
      }
    }
  }

  lemma {:induction false} AllWithin(minSpanMs: u64, calls: seq<Call>)
    requires minSpanMs > 0 && forall i :: 0 <= i < |calls| ==> calls[i].now == 0
    ensures CutUp(minSpanMs, calls) == Cut([], calls)
  {
    if calls != [] {
      AllWithin(minSpanMs, calls[..|calls| - 1]);
      assert calls == calls[..|calls| - 1] + [calls[|calls| - 1]];
    }
  }

  ghost predicate NeverPanics(minSpanMs: u64) {
    forall calls :: Run(minSpanMs, calls).Some?
  }

  lemma {:induction false} LongSpanRuns(minSpanMs: u64, calls: seq<Call>)
    requires minSpanMs >= 1000
    ensures Run(minSpanMs, calls).Some?
  {
    if calls != [] {
      LongSpanRuns(minSpanMs, calls[..|calls| - 1]);
    }
  }

  /** A minimum span of a second, as by default, is exactly what keeps the division away from zero, on any clocks;
      and positive, ascending clocks alone would not do. */
  lemma NeverPanicsExactly(minSpanMs: u64)
    ensures NeverPanics(minSpanMs) <==> minSpanMs >= 1000
    ensures minSpanMs < 1000 ==> exists calls :: ClocksAscend(calls) && ClocksPositive(calls) && Run(minSpanMs, calls).None?
    ensures NeverPanics(DEFAULT_MIN_SPAN_MS)
  {
    forall calls ensures Run(DEFAULT_MIN_SPAN_MS, calls).Some? {
      LongSpanRuns(DEFAULT_MIN_SPAN_MS, calls);
    }
    if minSpanMs >= 1000 {
      forall calls ensures Run(minSpanMs, calls).Some? {
        LongSpanRuns(minSpanMs, calls);
      }
    } else {
      var calls := [Call(1, 1), Call(1, 1 + minSpanMs)];
      assert calls[..1] == [calls[0]] && calls[..1][..0] == [];
      assert Run(minSpanMs, []) == Some(History(NEW, []));
      assert Run(minSpanMs, calls[..1]) == Record(History(NEW, []), minSpanMs, calls[0]);
      assert Run(minSpanMs, calls).None?;
      assert ClocksAscend(calls) && ClocksPositive(calls);
    }
  }
}
