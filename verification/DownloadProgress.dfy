/** The download thread: what of an unbounded stream of transfer ticks it reports, and how a download ends. */
module DownloadProgress {
  import opened Structs
  import opened FirmwareTables
  import opened Texts

  const DOWNLOAD_FINISH_PERCENT := 100
  const DOWNLOAD_PERIOD_PERCENT := 1
  const REASON_CANCEL := "9"
  const REASON_NET_NOT_AVAILABLE := "11"
  const REASON_CURL_ERROR := "13"

  datatype Progress = Progress(percent: nat, status: Status, endReason: string)

  /** `file` is the length of the local package, if there is one; `reports` what the callback was given. */
  datatype Thread = Thread(progress: Progress, exitDownload: bool, isNoNet: bool, isCancel: bool,
                           file: Option<nat>, reports: seq<Progress>)

  const FRESH := Thread(Progress(0, Init, ""), false, false, false, None, [])

  /** What other threads did to the flags since the last look at them. */
  datatype Signals = Signals(noNet: bool, cancel: bool, stop: bool)

  function Signalled(t: Thread, s: Signals): Thread {
    t.(isNoNet := s.noNet, isCancel := t.isCancel || s.cancel, exitDownload := t.exitDownload || s.stop)
  }

  // ---------- reports ----------

  function Report(t: Thread, p: Progress): Thread {
    t.(progress := p, reports := t.reports + [p])
  }

  function DealAbnormal(t: Thread, percent: nat): Thread {
    Report(t.(isCancel := false),
           if t.isNoNet then Progress(percent, DownloadFail, REASON_NET_NOT_AVAILABLE)
           else Progress(percent, DownloadCancel, REASON_CANCEL))
  }

  /** The new state, and whether the transfer may go on. */
  function Callback(t: Thread, percent: nat, status: Status, error: string): (Thread, bool) {
    if t.exitDownload then (t, false)
    else if t.isNoNet || t.isCancel then (DealAbnormal(t, percent), false)
    else if t.progress.status == status && t.progress.percent == percent then (t, true)
    else if status != DownloadFail && percent != DOWNLOAD_FINISH_PERCENT &&
            percent < t.progress.percent + DOWNLOAD_PERIOD_PERCENT then (t, true)
    else
      var u := if status == DownloadFail then t.(file := None) else t;
      if percent == DOWNLOAD_FINISH_PERCENT && status == Downloading then (u, true)
      else (Report(u, Progress(percent, status, error)), true)
  }

  // ---------- ticks ----------

  /** Bytes still to come when the transfer began, bytes come since, and the length of the local file now. */
  datatype Tick = Tick(total: real, now: real, length: nat, signals: Signals)

  /** What libcurl promises of a tick whose total is known. */
  predicate Legal(tick: Tick) {
    tick.total > 0.0 ==> 0.0 <= tick.now <= tick.total
  }

  function Fraction(total: real, now: real, length: nat): real
    requires total > 0.0
  {
    (now + length as real) / (length as real + total)
  }

  function Percent(total: real, now: real, length: nat): int
    requires total > 0.0
  {
    (Fraction(total, now, length) * DOWNLOAD_FINISH_PERCENT as real).Floor
  }

  lemma FractionBetween(total: real, now: real, length: nat)
    requires 0.0 <= now <= total && total > 0.0
    ensures 0.0 <= Fraction(total, now, length) <= 1.0
    ensures Fraction(total, now, length) == 1.0 <==> now == total
  {
    var x, y := now + length as real, length as real + total;
    assert 0.0 <= x <= y && y > 0.0;
    QuotientBound(x, y);
  }

  lemma QuotientBound(x: real, y: real)
    requires 0.0 <= x <= y && y > 0.0
    ensures 0.0 <= x / y <= 1.0 && (x / y == 1.0 <==> x == y)
  {
    assert x / y * y == x;
  }

  /** The percentage lies in 0..100, and is 100 only when all has come. */
  lemma PercentRange(total: real, now: real, length: nat)
    requires 0.0 <= now <= total && total > 0.0
    ensures 0 <= Percent(total, now, length) <= DOWNLOAD_FINISH_PERCENT
    ensures Percent(total, now, length) == DOWNLOAD_FINISH_PERCENT <==> now == total
  {
    FractionBetween(total, now, length);
  }

  /** It is the whole number of hundredths of the package there is, no more and no less. */
  lemma PercentBracket(total: real, now: real, length: nat)
    requires 0.0 <= now <= total && total > 0.0
    ensures var p := Percent(total, now, length) as real;
            p * (length as real + total) <= 100.0 * (now + length as real) < (p + 1.0) * (length as real + total)
  {
    var x, y := now + length as real, length as real + total;
    var p := Percent(total, now, length) as real;
    var v := x / y * 100.0;
    assert Fraction(total, now, length) == x / y && DOWNLOAD_FINISH_PERCENT as real == 100.0;
    assert p <= v < p + 1.0;
    ScaledBetween(p, p + 1.0, v, y, 100.0 * x) by {
      ScaledBack(x, y);
    }
  }

  lemma ScaledBetween(p: real, q: real, v: real, y: real, z: real)
    requires y > 0.0 && p <= v < q && v * y == z
    ensures p * y <= z < q * y
  {
    ScaleOrder(p, v, y);
    ScaleOrder(q, v, y);
  }

  lemma ScaledBack(x: real, y: real)
    requires y > 0.0
    ensures x / y * 100.0 * y == 100.0 * x
  {
    assert x / y * y == x;
  }

  /** So it is the only number between those bounds. */
  lemma PercentIs(total: real, now: real, length: nat, p: int)
    requires 0.0 <= now <= total && total > 0.0
    requires p as real * (length as real + total) <= 100.0 * (now + length as real)
    requires 100.0 * (now + length as real) < (p as real + 1.0) * (length as real + total)
    ensures Percent(total, now, length) == p
  {
    var y, q := length as real + total, Percent(total, now, length);
    PercentBracket(total, now, length);
    NotAbove(q, p, y, 100.0 * (now + length as real));
    NotAbove(p, q, y, 100.0 * (now + length as real));
  }

  lemma NotAbove(q: int, p: int, y: real, z: real)
    requires y > 0.0 && q as real * y <= z < (p as real + 1.0) * y
    ensures q <= p
  {
    var next := p as real + 1.0;
    assert (p as real + 1.0) * y == next * y;
    ScaleOrder(next, q as real, y);
  }

  lemma QuotientOrder(a: real, b: real, c: real, d: real)
    requires b > 0.0 && d > 0.0
    ensures a / b <= c / d <==> a * d <= c * b
  {
    var x, y := a / b, c / d;
    assert a == x * b && c == y * d;
    assert a * d == x * (b * d) && c * b == y * (b * d);
    ScaleOrder(x, y, b * d);
  }

  lemma ScaleOrder(x: real, y: real, k: real)
    requires k > 0.0
    ensures x <= y <==> x * k <= y * k
  {
    assert (y - x) * k == y * k - x * k;
  }

  /** The part that has come never goes down as bytes come and the local file grows. */
  lemma FractionMonotone(total: real, now: real, length: nat, now': real, length': nat)
    requires 0.0 <= now <= now' <= total && total > 0.0 && length <= length'
    ensures Fraction(total, now, length) <= Fraction(total, now', length')
  {
    var c, c' := length as real, length' as real;
    LengthGrows(total, now, c, c');
    ScaleOrder(now + c', now' + c', c' + total);
    QuotientOrder(now + c', c' + total, now' + c', c' + total);
  }

  lemma Expand(x: real, y: real, u: real, v: real)
    ensures (x + y) * (u + v) == x * u + x * v + y * u + y * v
  {
  }

  lemma LengthGrows(total: real, now: real, c: real, c': real)
    requires 0.0 <= now <= total && total > 0.0 && 0.0 <= c <= c'
    ensures (now + c) / (c + total) <= (now + c') / (c' + total)
  {
    LengthProducts(total, now, c, c');
    QuotientOrder(now + c, c + total, now + c', c' + total);
  }

  lemma LengthProducts(total: real, now: real, c: real, c': real)
    requires now <= total && c <= c'
    ensures (now + c) * (c' + total) <= (now + c') * (c + total)
  {
    Expand(now, c, c', total);
    Expand(now, c', c, total);
    Expand(total, -now, c', -c);
    ProductZero(total - now, c' - c);
  }

  lemma PercentMonotone(total: real, now: real, length: nat, now': real, length': nat)
    requires 0.0 <= now <= now' <= total && total > 0.0 && length <= length'
    ensures Percent(total, now, length) <= Percent(total, now', length')
  {
    FractionMonotone(total, now, length, now', length');
  }

  /** The part of the package that is on the device: `start` bytes before the transfer, and `now` of its `total`
      since. */
  function TruePart(start: nat, total: nat, now: nat): real
    requires total > 0
  {
    (start as real + now as real) / (start as real + total as real)
  }

  /** The local length that is read at every tick already counts bytes of this transfer, those that have reached the
      file. So, resumed or not, the fraction is never too low, and it is right only while none have, or at the end
      of the transfer. */
  lemma FractionOverstated(start: nat, total: nat, now: nat, length: nat)
    requires now <= total && total > 0 && start <= length
    ensures Fraction(total as real, now as real, length) >= TruePart(start, total, now)
    ensures Fraction(total as real, now as real, length) == TruePart(start, total, now) <==>
            length == start || now == total
  {
    var a, n, t, l := start as real, now as real, total as real, length as real;
    OverstatedProducts(a, n, t, l);
    QuotientOrder(a + n, a + t, n + l, l + t);
    QuotientOrder(n + l, l + t, a + n, a + t);
    ProductZero(l - a, t - n);
  }

  lemma OverstatedProducts(a: real, n: real, t: real, l: real)
    ensures (n + l) * (a + t) - (a + n) * (l + t) == (l - a) * (t - n)
  {
    Expand(n, l, a, t);
    Expand(a, n, l, t);
    Expand(l, -a, t, -n);
  }

  lemma ProductZero(x: real, y: real)
    requires x >= 0.0 && y >= 0.0
    ensures x * y >= 0.0 && (x * y == 0.0 <==> x == 0.0 || y == 0.0)
  {
  }

  function TickStep(t: Thread, tick: Tick): (Thread, bool)
    requires Legal(tick)
  {
    var u := Signalled(t, tick.signals);
    if tick.total <= 0.0 then (u, true)
    else
      PercentRange(tick.total, tick.now, tick.length);
      Callback(u.(file := Some(tick.length)), Percent(tick.total, tick.now, tick.length), Downloading, "")
  }

  /** The transfer, until a tick is refused. */
  function Perform(t: Thread, ticks: seq<Tick>): (Thread, bool)
    requires forall i :: 0 <= i < |ticks| ==> Legal(ticks[i])
    decreases |ticks|
  {
    if ticks == [] then (t, true)
    else
      var (u, goOn) := TickStep(t, ticks[0]);
      if goOn then Perform(u, ticks[1..]) else (u, false)
  }

  // ---------- one execution ----------

  datatype Attempt =
    | FileOpenFails(signals: Signals)
    | CurlInitFails(signals: Signals)
    | Transfer(ticks: seq<Tick>, curlOk: bool, signals: Signals)

  predicate LegalAttempt(a: Attempt) {
    a.Transfer? ==> forall i :: 0 <= i < |a.ticks| ==> Legal(a.ticks[i])
  }

  predicate DottedName(name: string) {
    Contains(name, "/.") || Contains(name, "./")
  }

  /** The state after an execution, and whether the thread waits for another. */
  function Execute(t: Thread, name: string, a: Attempt): (Thread, bool)
    requires LegalAttempt(a)
  {
    if DottedName(name) then (Callback(Signalled(t, a.signals), 0, DownloadFail, "Failed to check file").0, true)
    else
      match a
      case FileOpenFails(s) => (Callback(Signalled(t, s), 0, DownloadFail, "Failed ot open file").0, true)
      case CurlInitFails(s) => (Callback(Signalled(t, s), 0, DownloadFail, "Failed to init curl").0, true)
      case Transfer(ticks, curlOk, s) =>
        var (u, complete) := Perform(t, ticks);
        if !complete then (u, false)
        else if curlOk then
          (Callback(Signalled(u, s), DOWNLOAD_FINISH_PERCENT, DownloadSuccess, "").0, false)
        else (Callback(Signalled(u, s), 0, DownloadFail, REASON_CURL_ERROR).0, false)
  }

  // ---------- the shape of the report sequence ----------

  predicate Terminal(p: Progress) {
    p.status == DownloadSuccess || p.status == DownloadFail || p.status == DownloadCancel
  }

  /** Downloading percentages, strictly increasing between `low` and a hundred. */
  predicate Rising(reports: seq<Progress>, low: nat) {
    && (forall i :: 0 <= i < |reports| ==>
          reports[i].status == Downloading && low < reports[i].percent < DOWNLOAD_FINISH_PERCENT)
    && (forall i, j :: 0 <= i < j < |reports| ==> reports[i].percent < reports[j].percent)
  }

  lemma {:induction false} RisingShort(reports: seq<Progress>, low: nat)
    requires Rising(reports, low)
    ensures |reports| > 0 ==> low + |reports| <= reports[|reports| - 1].percent
    decreases |reports|
  {
    if |reports| > 1 {
      RisingShort(reports[..|reports| - 1], low);
    }
  }

  lemma TickShape(t: Thread, tick: Tick) returns (rising: seq<Progress>, end: seq<Progress>)
    requires Legal(tick)
    ensures var (u, goOn) := TickStep(t, tick);
            && u.reports == t.reports + rising + end
            && |rising| + |end| <= 1 && Rising(rising, t.progress.percent)
            && (goOn ==> end == [] && u.progress == Latest(t, rising) && (u.exitDownload ==> tick.total <= 0.0))
            && (!goOn ==> (end == [] <==> u.exitDownload) && (end != [] ==> Abnormal(end[0])))
  {
    var (u, goOn) := TickStep(t, tick);
    rising, end := [], [];
    if tick.total > 0.0 {
      PercentRange(tick.total, tick.now, tick.length);
    }
    if |u.reports| > |t.reports| {
      if goOn {
        rising := [u.progress];
      } else {
        end := [u.progress];
      }
    }
  }

  predicate Abnormal(p: Progress) {
    p.status == DownloadFail || p.status == DownloadCancel
  }

  function Latest(t: Thread, rising: seq<Progress>): Progress {
    if rising == [] then t.progress else rising[|rising| - 1]
  }

  lemma Regroup(a: seq<Progress>, b: seq<Progress>, c: seq<Progress>, d: seq<Progress>)
    ensures a + b + c + d == a + (b + c) + d
    ensures a + [] + c + d == a + c + d
  {
  }

  lemma RegroupLonger(a: seq<Progress>, b: seq<Progress>, c: seq<Progress>, d: seq<Progress>, e: seq<Progress>)
    ensures a + b + c + d + e == a + (b + c) + d + e
  {
    assert a + b + c == a + (b + c);
  }

  lemma RisingJoin(first: seq<Progress>, rest: seq<Progress>, low: nat)
    requires Rising(first, low) && |first| <= 1
    requires Rising(rest, if first == [] then low else first[0].percent)
    ensures Rising(first + rest, low)
  {
  }

  /** Whatever the ticks: rising percentages, then at most one report that ends the transfer. */
  lemma {:induction false} PerformShape(t: Thread, ticks: seq<Tick>)
    returns (rising: seq<Progress>, end: seq<Progress>)
    requires forall i :: 0 <= i < |ticks| ==> Legal(ticks[i])
    ensures var (u, complete) := Perform(t, ticks);
            && u.reports == t.reports + rising + end
            && Rising(rising, t.progress.percent) && |end| <= 1
            && (complete ==> end == [] && u.progress == Latest(t, rising))
            && (!complete ==> (end == [] <==> u.exitDownload) && (end != [] ==> Abnormal(end[0])))
    decreases |ticks|
  {
    if ticks == [] {
      rising, end := [], [];
    } else {
      var first, last := TickShape(t, ticks[0]);
      var (u, goOn) := TickStep(t, ticks[0]);
      if goOn {
        assert u.reports == t.reports + first;
        var rest;
        rest, end := PerformShape(u, ticks[1..]);
        Regroup(t.reports, first, rest, end);
        RisingJoin(first, rest, t.progress.percent);
        rising := first + rest;
        assert Latest(t, rising) == Latest(u, rest);
      } else {
        rising, end := first, last;
      }
    }
  }

  /** The status and percentage an execution means to end with. */
  function Aim(name: string, a: Attempt): (nat, Status) {
    if !DottedName(name) && a.Transfer? && a.curlOk then (DOWNLOAD_FINISH_PERCENT, DownloadSuccess)
    else (0, DownloadFail)
  }

  /** The report that ends a download is left out if it would repeat the last one. */
  lemma EndShape(t: Thread, percent: nat, status: Status, error: string) returns (end: seq<Progress>)
    requires (percent, status) == (DOWNLOAD_FINISH_PERCENT, DownloadSuccess) || (percent, status) == (0, DownloadFail)
    ensures var u := Callback(t, percent, status, error).0;
            && u.reports == t.reports + end && |end| <= 1
            && (end != [] ==> end[0].percent == percent && (Abnormal(end[0]) || end[0].status == status))
            && (end == [] <==> u.exitDownload ||
                               (!t.isNoNet && !t.isCancel && (t.progress.percent, t.progress.status) == (percent, status)))
  {
    var u := Callback(t, percent, status, error).0;
    if |u.reports| > |t.reports| {
      end := [u.progress];
    } else {
      end := [];
    }
  }

  /** One execution, for any number of ticks and from any state of the thread: rising percentages between the
      last one reported and a hundred, so never more than ninety-nine, then at most one report that ends the
      download. That one is missing only if the thread was stopped, or if nothing was reported and the ending
      is the one reported last. */
  lemma ExecutionReports(t: Thread, name: string, a: Attempt) returns (rising: seq<Progress>, end: seq<Progress>)
    requires LegalAttempt(a)
    ensures var u := Execute(t, name, a).0;
            && u.reports == t.reports + rising + end
            && Rising(rising, t.progress.percent) && |rising| < DOWNLOAD_FINISH_PERCENT
            && |end| <= 1 && (end != [] ==> Terminal(end[0]))
            && (u.exitDownload ==> end == [])
            && (end == [] && !u.exitDownload ==>
                  rising == [] && (t.progress.percent, t.progress.status) == Aim(name, a))
            && (end != [] && end[0].status == DownloadSuccess ==> Aim(name, a).1 == DownloadSuccess)
  {
    if DottedName(name) || !a.Transfer? {
      rising := [];
      var error := if DottedName(name) then "Failed to check file"
                   else if a.FileOpenFails? then "Failed ot open file" else "Failed to init curl";
      end := EndShape(Signalled(t, a.signals), 0, DownloadFail, error);
    } else {
      rising, end := TransferReports(t, name, a);
    }
  }

  lemma TransferReports(t: Thread, name: string, a: Attempt) returns (rising: seq<Progress>, end: seq<Progress>)
    requires LegalAttempt(a) && !DottedName(name) && a.Transfer?
    ensures var u := Execute(t, name, a).0;
            && u.reports == t.reports + rising + end
            && Rising(rising, t.progress.percent) && |rising| < DOWNLOAD_FINISH_PERCENT
            && |end| <= 1 && (end != [] ==> Terminal(end[0]))
            && (u.exitDownload ==> end == [])
            && (end == [] && !u.exitDownload ==>
                  rising == [] && (t.progress.percent, t.progress.status) == Aim(name, a))
            && (end != [] && end[0].status == DownloadSuccess ==> Aim(name, a).1 == DownloadSuccess)
  {
    rising, end := PerformShape(t, a.ticks);
    var (u, complete) := Perform(t, a.ticks);
    RisingShort(rising, t.progress.percent);
    if complete {
      assert u.reports == t.reports + rising;
      assert rising != [] ==> u.progress.status == Downloading;
      if a.curlOk {
        end := EndShape(Signalled(u, a.signals), DOWNLOAD_FINISH_PERCENT, DownloadSuccess, "");
      } else {
        end := EndShape(Signalled(u, a.signals), 0, DownloadFail, REASON_CURL_ERROR);
      }
    }
  }

  predicate Unstopped(a: Attempt) {
    !a.signals.stop && (a.Transfer? ==> forall i :: 0 <= i < |a.ticks| ==> !a.ticks[i].signals.stop)
  }

  lemma {:induction false} PerformUnstopped(t: Thread, ticks: seq<Tick>)
    requires forall i :: 0 <= i < |ticks| ==> Legal(ticks[i]) && !ticks[i].signals.stop
    requires !t.exitDownload
    ensures !Perform(t, ticks).0.exitDownload
    decreases |ticks|
  {
    if ticks != [] {
      var (u, goOn) := TickStep(t, ticks[0]);
      if goOn {
        PerformUnstopped(u, ticks[1..]);
      }
    }
  }

  /** A fresh thread that is not stopped: rising percentages in 1..99, then exactly one terminal report. */
  lemma FreshExecution(name: string, a: Attempt) returns (rising: seq<Progress>, end: Progress)
    requires LegalAttempt(a) && Unstopped(a)
    ensures Execute(FRESH, name, a).0.reports == rising + [end]
    ensures Rising(rising, 0) && |rising| <= 99 && Terminal(end)
  {
    var last: seq<Progress>;
    rising, last := ExecutionReports(FRESH, name, a);
    StaysUnstopped(FRESH, name, a);
    end := last[0];
    FreshJoined(rising, last);
  }

  lemma StaysUnstopped(t: Thread, name: string, a: Attempt)
    requires LegalAttempt(a) && Unstopped(a) && !t.exitDownload
    ensures !Execute(t, name, a).0.exitDownload
  {
    if a.Transfer? {
      PerformUnstopped(t, a.ticks);
    }
  }

  lemma FreshJoined(rising: seq<Progress>, last: seq<Progress>)
    requires |last| == 1
    ensures [] + rising + last == rising + [last[0]]
  {
  }

  // ---------- nothing that should be reported is missed ----------

  predicate Plain(tick: Tick) {
    !tick.signals.noNet && !tick.signals.cancel && !tick.signals.stop
  }

  predicate Counts(tick: Tick) {
    tick.total > 0.0 && Percent(tick.total, tick.now, tick.length) < DOWNLOAD_FINISH_PERCENT
  }

  /** Undisturbed, the transfer goes through and the percentage last reported is the highest below a hundred
      that any tick came to. */
  lemma {:induction false} HighestReported(t: Thread, ticks: seq<Tick>)
    requires forall i :: 0 <= i < |ticks| ==> Legal(ticks[i]) && Plain(ticks[i])
    requires !t.exitDownload && !t.isCancel && t.progress.percent < DOWNLOAD_FINISH_PERCENT
    ensures var (u, complete) := Perform(t, ticks);
            && complete && !u.exitDownload && !u.isCancel
            && t.progress.percent <= u.progress.percent < DOWNLOAD_FINISH_PERCENT
            && (forall i :: 0 <= i < |ticks| && Counts(ticks[i]) ==>
                  Percent(ticks[i].total, ticks[i].now, ticks[i].length) <= u.progress.percent)
            && (u.progress.percent == t.progress.percent ||
                exists i :: 0 <= i < |ticks| && Counts(ticks[i]) &&
                            Percent(ticks[i].total, ticks[i].now, ticks[i].length) == u.progress.percent)
    decreases |ticks|
  {
    if ticks != [] {
      var u := TickHighest(t, ticks[0]);
      HighestReported(u, ticks[1..]);
      var w := Perform(u, ticks[1..]).0;
      forall i | 0 <= i < |ticks| && Counts(ticks[i])
        ensures Percent(ticks[i].total, ticks[i].now, ticks[i].length) <= w.progress.percent
      {
        if i > 0 {
          assert ticks[i] == ticks[1..][i - 1];
        }
      }
      if w.progress.percent != u.progress.percent {
        var i :| 0 <= i < |ticks[1..]| && Counts(ticks[1..][i]) &&
                 Percent(ticks[1..][i].total, ticks[1..][i].now, ticks[1..][i].length) == w.progress.percent;
        assert ticks[i + 1] == ticks[1..][i];
      }
    }
  }

  lemma TickHighest(t: Thread, tick: Tick) returns (u: Thread)
    requires Legal(tick) && Plain(tick)
    requires !t.exitDownload && !t.isCancel && t.progress.percent < DOWNLOAD_FINISH_PERCENT
    ensures TickStep(t, tick) == (u, true) && !u.exitDownload && !u.isCancel
    ensures u.progress.percent ==
            if Counts(tick) && Percent(tick.total, tick.now, tick.length) > t.progress.percent
            then Percent(tick.total, tick.now, tick.length) else t.progress.percent
  {
    u := TickStep(t, tick).0;
    if tick.total > 0.0 {
      PercentRange(tick.total, tick.now, tick.length);
    }
  }

  predicate Quiet(a: Attempt) {
    && !a.signals.noNet && !a.signals.cancel && !a.signals.stop
    && (a.Transfer? ==> forall i :: 0 <= i < |a.ticks| ==> Plain(a.ticks[i]))
  }

  /** No tick comes to one percent without coming to a hundred. */
  predicate NoPercent(ticks: seq<Tick>) {
    forall i :: 0 <= i < |ticks| && Counts(ticks[i]) ==> Percent(ticks[i].total, ticks[i].now, ticks[i].length) <= 0
  }

  /** Undisturbed, an execution reports nothing at all if and only if the thread last reported a failure at no
      percentage, and this one fails before its first percent. */
  lemma SilentExactly(t: Thread, name: string, a: Attempt)
    requires LegalAttempt(a) && Quiet(a)
    requires !t.exitDownload && !t.isCancel && t.progress.percent < DOWNLOAD_FINISH_PERCENT
    ensures Execute(t, name, a).0.reports == t.reports <==>
            && t.progress.percent == 0 && t.progress.status == DownloadFail
            && (DottedName(name) || !a.Transfer? || (!a.curlOk && NoPercent(a.ticks)))
  {
    if DottedName(name) || !a.Transfer? {
      var rising, end := ExecutionReports(t, name, a);
    } else {
      HighestReported(t, a.ticks);
      var rising, none := PerformShape(t, a.ticks);
      var u := Perform(t, a.ticks).0;
      assert rising != [] ==> u.progress.percent > t.progress.percent;
      var percent, status := Aim(name, a).0, Aim(name, a).1;
      var end := EndShape(Signalled(u, a.signals), percent, status, if a.curlOk then "" else REASON_CURL_ERROR);
      SilentParts(t.reports, rising, end);
      assert u.reports == t.reports + rising;
      assert Execute(t, name, a).0.reports == t.reports + rising + end;
      assert rising != [] ==> u.progress.status == Downloading;
    }
  }

  lemma SilentParts(reports: seq<Progress>, rising: seq<Progress>, end: seq<Progress>)
    ensures reports + rising + end == reports <==> rising == [] && end == []
  {
    if reports + rising + end == reports {
      assert |reports + rising + end| == |reports| + |rising| + |end|;
    }
  }

  /** A tick whose bytes come to p percent, above the last report and below a hundred, is reported as p percent. */
  lemma TickReported(t: Thread, tick: Tick, p: nat)
    requires Legal(tick) && Plain(tick) && tick.total > 0.0 && !t.exitDownload && !t.isCancel
    requires t.progress.percent < p < 100
    requires p as real * (tick.length as real + tick.total) <= 100.0 * (tick.now + tick.length as real)
    requires 100.0 * (tick.now + tick.length as real) < (p as real + 1.0) * (tick.length as real + tick.total)
    ensures var (u, goOn) := TickStep(t, tick);
            && goOn && u.progress == Progress(p, Downloading, "")
            && u.reports == t.reports + [Progress(p, Downloading, "")] && u.file == Some(tick.length)
  {
    PercentIs(tick.total, tick.now, tick.length, p);
  }

  /** One that comes to no more than the last report, or to the whole, is not reported, and the transfer goes on. */
  lemma TickUnreported(t: Thread, tick: Tick, p: nat)
    requires Legal(tick) && Plain(tick) && tick.total > 0.0 && !t.exitDownload && !t.isCancel
    requires p <= t.progress.percent || p == 100
    requires p as real * (tick.length as real + tick.total) <= 100.0 * (tick.now + tick.length as real)
    requires 100.0 * (tick.now + tick.length as real) < (p as real + 1.0) * (tick.length as real + tick.total)
    ensures var (u, goOn) := TickStep(t, tick);
            goOn && u.progress == t.progress && u.reports == t.reports && u.file == Some(tick.length)
  {
    PercentIs(tick.total, tick.now, tick.length, p);
  }

  /** Without network the download fails, and cancelled it is cancelled, at the percentage of the moment and with
      the reason; the package stays, and the cancellation is used up. A stopped thread says nothing. */
  lemma AbnormalReported(t: Thread, percent: nat, status: Status, error: string)
    requires t.exitDownload || t.isNoNet || t.isCancel
    ensures var (u, goOn) := Callback(t, percent, status, error);
            && !goOn
            && (t.exitDownload ==> u == t)
            && (!t.exitDownload ==>
                  var p := if t.isNoNet then Progress(percent, DownloadFail, "11")
                           else Progress(percent, DownloadCancel, "9");
                  u.progress == p && u.reports == t.reports + [p] && !u.isCancel && u.file == t.file)
  {
  }

  /** A tick that finds the thread stopped, the network gone or the download cancelled refuses the transfer, in that
      order of precedence, with the one report the case calls for, at the percentage its bytes come to. */
  lemma TickSignalled(t: Thread, tick: Tick, p: nat)
    requires Legal(tick) && tick.total > 0.0
    requires p as real * (tick.length as real + tick.total) <= 100.0 * (tick.now + tick.length as real)
    requires 100.0 * (tick.now + tick.length as real) < (p as real + 1.0) * (tick.length as real + tick.total)
    ensures var (u, goOn) := TickStep(t, tick);
            var stopped := t.exitDownload || tick.signals.stop;
            var cancelled := t.isCancel || tick.signals.cancel;
            && (stopped || tick.signals.noNet || cancelled ==> !goOn)
            && (stopped ==> u.reports == t.reports)
            && (!stopped && tick.signals.noNet ==> u.reports == t.reports + [Progress(p, DownloadFail, "11")])
            && (!stopped && !tick.signals.noNet && cancelled ==>
                  u.reports == t.reports + [Progress(p, DownloadCancel, "9")])
  {
    PercentIs(tick.total, tick.now, tick.length, p);
  }

  /** Before the size is known a tick reports nothing and lets the transfer go on, but a stop or a cancellation that
      came meanwhile is remembered. */
  lemma UnknownSize(t: Thread, tick: Tick)
    requires Legal(tick) && tick.total <= 0.0
    ensures var (u, goOn) := TickStep(t, tick);
            && goOn && u.reports == t.reports && u.progress == t.progress && u.file == t.file
            && (u.isCancel <==> t.isCancel || tick.signals.cancel)
            && (u.exitDownload <==> t.exitDownload || tick.signals.stop)
  {
  }

  /** A request makes a stopped thread that still waits go on. */
  lemma StoppedResumes(t: Thread, request: Request)
    requires LegalAttempt(request.attempt)
    ensures Life(t, [request]) == Life(t.(exitDownload := false), [request])
  {
    assert [request][1..] == [];
  }

  /** How an undisturbed transfer ends: in success at a hundred percent with the package kept, or in failure at none
      with the package gone. */
  lemma TransferEnded(t: Thread, name: string, ticks: seq<Tick>, curlOk: bool, signals: Signals)
    requires LegalAttempt(Transfer(ticks, curlOk, signals)) && Quiet(Transfer(ticks, curlOk, signals))
    requires !DottedName(name) && !t.exitDownload && !t.isCancel && t.progress.percent < 100
    requires t.progress.status != DownloadFail
    ensures var (u, waits) := Execute(t, name, Transfer(ticks, curlOk, signals));
            && !waits
            && u.progress == (if curlOk then Progress(100, DownloadSuccess, "") else Progress(0, DownloadFail, "13"))
            && |u.reports| > 0 && u.reports[|u.reports| - 1] == u.progress
            && (!curlOk ==> u.file == None)
            && (curlOk ==> u.file == Perform(t, ticks).0.file)
  {
    HighestReported(t, ticks);
    var rising, none := PerformShape(t, ticks);
    var u := Perform(t, ticks).0;
    assert u.progress.status != DownloadFail;
  }

  /** How one ends that cannot begin: in failure at none, with what went wrong, and the thread waits. */
  lemma EarlyEnded(t: Thread, name: string, a: Attempt)
    requires LegalAttempt(a) && Quiet(a) && !t.exitDownload && !t.isCancel && t.progress.status != DownloadFail
    requires DottedName(name) || !a.Transfer?
    ensures var (u, waits) := Execute(t, name, a);
            var p := Progress(0, DownloadFail,
                              if DottedName(name) then "Failed to check file"
                              else if a.FileOpenFails? then "Failed ot open file" else "Failed to init curl");
            waits && u.progress == p && u.reports == t.reports + [p] && u.file == None
  {
  }

  /** The names that are refused are those with "/." or "./" in them. */
  lemma DottedNames(before: string, after: string)
    ensures DottedName(before + "/." + after) && DottedName(before + "./" + after)
  {
    var a, b, i := before + "/." + after, before + "./" + after, |before|;
    assert a[i..i + 2] == "/." && b[i..i + 2] == "./";
    assert At(a, i, "/.") && At(b, i, "./");
  }

  lemma DottedParts(name: string) returns (before: string, after: string)
    requires DottedName(name)
    ensures name == before + "/." + after || name == before + "./" + after
  {
    var part := if Contains(name, "/.") then "/." else "./";
    assert |part| == 2;
    var i: nat :| i <= |name| && At(name, i, part);
    before, after := name[..i], name[i + 2..];
    assert name == name[..i] + name[i..i + 2] + name[i + 2..];
  }

  // ---------- the life of a thread ----------

  datatype Request = Request(name: string, attempt: Attempt)

  /** Requests made one after the other. A thread whose transfer has ended, well or not, takes no more. */
  function Life(t: Thread, requests: seq<Request>): Thread
    requires forall i :: 0 <= i < |requests| ==> LegalAttempt(requests[i].attempt)
    decreases |requests|
  {
    if requests == [] then t
    else
      var (u, waits) := Execute(t.(exitDownload := false), requests[0].name, requests[0].attempt);
      if waits then Life(u, requests[1..]) else u
  }

  lemma EarlyFailure(t: Thread, name: string, a: Attempt) returns (failures: seq<Progress>)
    requires LegalAttempt(a) && t.progress.percent == 0 && Execute(t, name, a).1
    ensures var u := Execute(t, name, a).0; u.reports == t.reports + failures && u.progress.percent == 0
    ensures forall p :: p in failures ==> Abnormal(p) && p.percent == 0
  {
    var error := if DottedName(name) then "Failed to check file"
                 else if a.FileOpenFails? then "Failed ot open file" else "Failed to init curl";
    failures := EndShape(Signalled(t, a.signals), 0, DownloadFail, error);
  }

  /** Over the whole life of a thread, however many requests: failures before any byte came, then one series of
      rising percentages, then at most one ending. So a client sees at most ninety-nine percentages in all, and
      a success at most once, after everything else. */
  lemma {:induction false} LifeReports(t: Thread, requests: seq<Request>)
    returns (failures: seq<Progress>, rising: seq<Progress>, end: seq<Progress>)
    requires forall i :: 0 <= i < |requests| ==> LegalAttempt(requests[i].attempt)
    requires t.progress.percent == 0
    ensures Life(t, requests).reports == t.reports + failures + rising + end
    ensures forall p :: p in failures ==> Abnormal(p) && p.percent == 0
    ensures Rising(rising, 0) && |rising| <= 99 && |end| <= 1 && (end != [] ==> Terminal(end[0]))
    decreases |requests|
  {
    failures, rising, end := [], [], [];
    if requests != [] {
      var s, name, a := t.(exitDownload := false), requests[0].name, requests[0].attempt;
      var (u, waits) := Execute(s, name, a);
      if waits {
        var first := EarlyFailure(s, name, a);
        var more;
        more, rising, end := LifeReports(u, requests[1..]);
        RegroupLonger(t.reports, first, more, rising, end);
        failures := first + more;
      } else {
        rising, end := ExecutionReports(s, name, a);
        Regroup(t.reports, [], rising, end);
      }
    }
  }

  // ---------- the thread's own code ----------

  class DownloadThread {
    var progress: Progress
    var exitDownload: bool
    var isNoNet: bool
    var isCancel: bool
    var file: Option<nat>
    var reports: seq<Progress>

    ghost function View(): Thread
      reads this
    {
      Thread(progress, exitDownload, isNoNet, isCancel, file, reports)
    }

    constructor ()
      ensures View() == FRESH
    {
      progress := Progress(0, Init, "");
      exitDownload, isNoNet, isCancel, file, reports := false, false, false, None, [];
    }

    method Signal(s: Signals)
      modifies this
      ensures View() == Signalled(old(View()), s)
    {
      isNoNet := s.noNet;
      if s.cancel {
        isCancel := true;
      }
      if s.stop {
        exitDownload := true;
      }
    }

    method Abnormal(percent: nat) returns (dealt: bool)
      modifies this
      ensures dealt == (old(isNoNet) || old(isCancel))
      ensures View() == if dealt then DealAbnormal(old(View()), percent) else old(View())
    {
      dealt := false;
      if isNoNet || isCancel {
        progress := progress.(endReason := if isNoNet then REASON_NET_NOT_AVAILABLE else REASON_CANCEL);
        progress := progress.(percent := percent);
        progress := progress.(status := if isNoNet then DownloadFail else DownloadCancel);
        if isCancel {
          isCancel := false;
        }
        dealt := true;
        reports := reports + [progress];
      }
    }

    method DownloadCallback(percent: nat, status: Status, error: string) returns (goOn: bool)
      modifies this
      ensures (View(), goOn) == Callback(old(View()), percent, status, error)
    {
      if exitDownload {
        return false;
      }
      var dealt := Abnormal(percent);
      if dealt {
        return false;
      }
      if progress.status == status && progress.percent == percent {
        return true;
      }
      if status == DownloadFail {
        file := None;
      } else if percent != DOWNLOAD_FINISH_PERCENT && percent < progress.percent + DOWNLOAD_PERIOD_PERCENT {
        return true;
      }
      if percent == DOWNLOAD_FINISH_PERCENT && status == Downloading {
        return true;
      }
      progress := Progress(percent, status, error);
      reports := reports + [progress];
      return true;
    }

    method OnTick(tick: Tick) returns (goOn: bool)
      requires Legal(tick)
      modifies this
      ensures (View(), goOn) == TickStep(old(View()), tick)
    {
      Signal(tick.signals);
      if tick.total <= 0.0 {
        return true;
      }
      file := Some(tick.length);
      PercentRange(tick.total, tick.now, tick.length);
      goOn := DownloadCallback(Percent(tick.total, tick.now, tick.length), Downloading, "");
    }

    /** The transfer as libcurl carries it out: a refused tick is the last. */
    method EasyPerform(ticks: seq<Tick>) returns (complete: bool)
      requires forall i :: 0 <= i < |ticks| ==> Legal(ticks[i])
      modifies this
      ensures (View(), complete) == Perform(old(View()), ticks)
    {
      for i := 0 to |ticks|
        invariant Perform(View(), ticks[i..]) == Perform(old(View()), ticks)
      {
        assert ticks[i..][1..] == ticks[i + 1..];
        var goOn := OnTick(ticks[i]);
        if !goOn {
          return false;
        }
      }
      return true;
    }

    method ProcessThreadExecute(name: string, a: Attempt) returns (waits: bool)
      requires LegalAttempt(a)
      modifies this
      ensures (View(), waits) == Execute(old(View()), name, a)
    {
      var goOn: bool;
      if DottedName(name) {
        Signal(a.signals);
        goOn := DownloadCallback(0, DownloadFail, "Failed to check file");
        return true;
      }
      match a {
        case FileOpenFails(s) =>
          Signal(s);
          goOn := DownloadCallback(0, DownloadFail, "Failed ot open file");
          return true;
        case CurlInitFails(s) =>
          Signal(s);
          goOn := DownloadCallback(0, DownloadFail, "Failed to init curl");
          return true;
        case Transfer(ticks, curlOk, s) =>
          var complete := EasyPerform(ticks);
          if complete {
            Signal(s);
            if curlOk {
              goOn := DownloadCallback(DOWNLOAD_FINISH_PERCENT, DownloadSuccess, "");
            } else {
              goOn := DownloadCallback(0, DownloadFail, REASON_CURL_ERROR);
            }
          }
          return false;
      }
    }
  }
}
