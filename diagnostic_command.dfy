/** `commands.DiagnosticCommand`: samples the server a fixed number of times, keeping one
    report per successful sample, then summarises the used swap space of every report
    it holds. Only the integer part is modelled: the sample count and delay, the
    sampling loop, the reports list, and the swap minimum, maximum, total, average and
    alert. One sample is the foreign answer `collect(counter)`. */
module DiagnosticCommand {
  import opened JavaLang
  import opened ImplCommandConfig
  import opened BaseCommand

  const SampleCap: int := 1000
  const SwapAlertLimit: int := 1024 * 32
  const SwapAlert: string := "ALERT!  Swap is above 32k, swap usage is bad for webservers"
  const NegativeTimeout: string := "timeout value is negative"

  /** The two swap attributes of the operating-system bean, as `long`s. */
  datatype SwapReading = SwapReading(total: int, free: int)

  /** The swap part of a `Report`. */
  datatype Report = Report(usedSwap: int)

  /** `r.usedSwapSpaceSize = total - free`, a `long` subtraction. */
  function NewReport(s: SwapReading): (r: Report)
    ensures LongMin <= r.usedSwap <= LongMax
    ensures LongMin <= s.total - s.free <= LongMax ==> r.usedSwap == s.total - s.free
  {
    Report(Wrap64(s.total - s.free))
  }

  // ------------------------------------------------------------ settings

  /** The sample count, the duration in seconds and the pause between samples in
      milliseconds. */
  datatype Plan = Plan(samples: int, duration: int, delay: int)

  /** Java's `int` division: truncating, and wrapping for `MIN_VALUE / -1`. */
  function IntDiv(a: int, b: int): int
    requires b != 0
  {
    Wrap32(TruncDiv(a, b))
  }

  /** The start of `execute()`: both options are read with `getOptionValue` (null
      when unset, which does not parse), the sample count is capped at 1000, and the
      delay is `(duration * 1000) / samples` in `int` arithmetic. */
  function Settings(c: CommandConfig): (r: Result<Plan>)
    requires c.Valid()
    ensures var n := ParseInt(GetOptionValue(c, NonNull("samples")));
            var d := ParseInt(GetOptionValue(c, NonNull("duration")));
            (n.Err? ==> r == Err(n.error))
            && (n.Ok? && n.value > 1000 ==> r.Ok? || d.Err?)
            && (n.Ok? && n.value == 0 && d.Ok? ==> r.Err? && r.error.kind == Arithmetic)
            && (r.Ok? ==> n.Ok? && d.Ok? && d.value == r.value.duration
                          && r.value.samples == (if n.value > SampleCap then SampleCap else n.value))
    ensures r.Ok? ==> r.value.samples != 0 && r.value.delay == IntDiv(Wrap32(r.value.duration * 1000), r.value.samples)
  {
    var n := ParseInt(GetOptionValue(c, NonNull("samples")));
    if n.Err? then Err(n.error)
    else
      var samples := if n.value > SampleCap then SampleCap else n.value;
      var d := ParseInt(GetOptionValue(c, NonNull("duration")));
      if d.Err? then Err(d.error)
      else if samples == 0 then Throw(Arithmetic, "/ by zero")
      else Ok(Plan(samples, d.value, IntDiv(Wrap32(d.value * 1000), samples)))
  }

  /** Without overflow, the delay is the duration in milliseconds shared out over the
      samples, rounded toward zero. */
  lemma DelaySharesDuration(duration: int, samples: int)
    requires 0 <= duration <= 2147483 && samples > 0
    ensures var delay := IntDiv(Wrap32(duration * 1000), samples);
            delay == (duration * 1000) / samples
            && delay * samples <= duration * 1000 < (delay + 1) * samples
  {
    ShareOut(duration * 1000, samples);
  }

  lemma ShareOut(t: int, n: int)
    requires 0 <= t <= IntMax && n > 0
    ensures IntDiv(Wrap32(t), n) == t / n
    ensures (t / n) * n <= t < (t / n + 1) * n
  {
    assert TruncDiv(t, n) == t / n;
  }

  /** Both options of this command declare defaults, and those are what
      `getOptionValue` answers: whenever both are set, ten samples are taken over one
      second, one every 100 milliseconds. */
  lemma DeclaredPlan(c: CommandConfig)
    requires c.Valid()
    requires forall o :: o in c.options && o.name == "samples" ==> o.value == "10"
    requires forall o :: o in c.options && o.name == "duration" ==> o.value == "1"
    requires IsOptionSet(c, NonNull("samples")) && IsOptionSet(c, NonNull("duration"))
    ensures Settings(c) == Ok(Plan(10, 1, 100))
  {
    ParsesDeclared();
    assert GetOptionValue(c, NonNull("samples")) == NonNull("10");
    assert GetOptionValue(c, NonNull("duration")) == NonNull("1");
    ShareOut(1000, 10);
  }

  lemma ParsesDeclared()
    ensures ParseInt(NonNull("10")) == Ok(10) && ParseInt(NonNull("1")) == Ok(1)
  {
    assert "10"[..1] == "1";
    assert DigitsValue("1") == 1;
    assert DigitsValue("10") == 10;
  }

  /** An unset "samples" is a null string, which does not parse. */
  lemma UnsetSamplesFail(c: CommandConfig)
    requires c.Valid() && !IsOptionSet(c, NonNull("samples"))
    ensures Settings(c) == Throw(NumberFormat, "null")
  {
  }

  /** A sample count of zero divides by zero. */
  lemma ZeroSamplesDivide(c: CommandConfig)
    requires c.Valid()
    requires ParseInt(GetOptionValue(c, NonNull("samples"))) == Ok(0)
    requires ParseInt(GetOptionValue(c, NonNull("duration"))).Ok?
    ensures Settings(c) == Throw(Arithmetic, "/ by zero")
  {
  }

  // ------------------------------------------------------------ messages

  const KeyPrefix: string := "tomcatcli.commands.diagnostic."

  /** The bundle message `tomcatcli.commands.diagnostic.<name>` with its arguments. */
  function Bundle(name: string, args: seq<string>): Message
  {
    Resource(KeyPrefix + name, args)
  }

  /** Every name this command logs under is a word, so `log` looks the message up in
      the bundle ... */
  lemma BundleKeys(name: string, args: seq<string>)
    requires IsWord(name)
    ensures LogMessage(KeyPrefix + name, args) == Bundle(name, args)
  {
    var ws := ["tomcatcli", "commands", "diagnostic", name];
    PrefixWords();
    DottedWordsAreKey(ws);
    PrefixJoined(name);
  }

  lemma PrefixWords()
    ensures IsWord("tomcatcli") && IsWord("commands") && IsWord("diagnostic")
  {
  }

  lemma PrefixJoined(name: string)
    ensures JoinWith(["tomcatcli", "commands", "diagnostic", name], ".") == KeyPrefix + name
  {
    var ws := ["tomcatcli", "commands", "diagnostic", name];
    assert ws[1..][1..][1..] == [name];
    assert JoinWith(ws[1..][1..], ".") == "diagnostic" + "." + name;
    assert JoinWith(ws[1..], ".") == "commands" + "." + ("diagnostic" + "." + name);
    assert JoinWith(ws, ".") == "tomcatcli" + "." + ("commands" + "." + ("diagnostic" + "." + name));
    assert "tomcatcli" + "." + ("commands" + "." + ("diagnostic" + "." + name)) == KeyPrefix + name;
  }

  /** ... while the empty message is printed as it is. */
  lemma BlankLine()
    ensures LogMessage("", []) == Text("")
  {
    WordIsNoKey("");
  }

  // ------------------------------------------------------------ the sampling loop

  function Collecting(counter: int): Message
  {
    Bundle("collecting", [DecimalString(counter)])
  }

  /** The reports added, the messages logged and the exception that escaped (null if
      none did) after the first `k` passes of the loop. */
  datatype Sampling = Sampling(added: seq<Report>, logged: seq<Message>, escaped: Nullable<Exception>)

  /** One pass: log the counter when verbose, collect, then sleep. An `IOException`
      from `collect` is caught and the counter moves on; any other exception, and the
      `IllegalArgumentException` of sleeping a negative delay, escapes the loop. A
      sample is added only when `collect` completes. */
  function Sampled(collect: nat -> Result<SwapReading>, delay: int, verbose: bool, k: nat): (s: Sampling)
    decreases k
  {
    if k == 0 then Sampling([], [], Null)
    else
      var p := Sampled(collect, delay, verbose, k - 1);
      if p.escaped.NonNull? then p else Pass(p, k - 1, collect(k - 1), delay, verbose)
  }

  /** The pass with counter `counter`, which `collect` answered with `got`. */
  function Pass(p: Sampling, counter: nat, got: Result<SwapReading>, delay: int, verbose: bool): Sampling
  {
    var logged := if verbose then p.logged + [Collecting(counter)] else p.logged;
    match got
    case Err(e) =>
      if e.kind == IOFailure then Sampling(p.added, logged, Null)
      else Sampling(p.added, logged, NonNull(e))
    case Ok(reading) =>
      var added := p.added + [NewReport(reading)];
      if delay < 0 then Sampling(added, logged, NonNull(Exception(IllegalArgument, NonNull(Text(NegativeTimeout)))))
      else Sampling(added, logged, Null)
  }

  /** Each pass adds at most one report, and logs one message when verbose and none
      otherwise. */
  lemma {:induction false} OnePerPass(collect: nat -> Result<SwapReading>, delay: int, verbose: bool, k: nat)
    ensures |Sampled(collect, delay, verbose, k).added| <= k
    ensures verbose ==> |Sampled(collect, delay, verbose, k).logged| <= k
    ensures !verbose ==> Sampled(collect, delay, verbose, k).logged == []
    decreases k
  {
    if k > 0 {
      OnePerPass(collect, delay, verbose, k - 1);
    }
  }

  /** Once an exception escapes, later passes never happen. */
  lemma {:induction false} EscapeIsFinal(collect: nat -> Result<SwapReading>, delay: int, verbose: bool, j: nat, k: nat)
    requires j <= k && Sampled(collect, delay, verbose, j).escaped.NonNull?
    ensures Sampled(collect, delay, verbose, k) == Sampled(collect, delay, verbose, j)
    decreases k
  {
    if j < k {
      EscapeIsFinal(collect, delay, verbose, j, k - 1);
    }
  }

  /** When every sample is collected and the delay is not negative, the loop adds
      exactly one report per pass, in counter order ... */
  lemma {:induction false} AllCollected(collect: nat -> Result<SwapReading>, delay: int, verbose: bool, k: nat)
    requires delay >= 0 && forall j :: 0 <= j < k ==> collect(j).Ok?
    ensures Sampled(collect, delay, verbose, k).escaped == Null
    ensures |Sampled(collect, delay, verbose, k).added| == k
    ensures forall j :: 0 <= j < k ==> Sampled(collect, delay, verbose, k).added[j] == NewReport(collect(j).value)
    decreases k
  {
    if k > 0 {
      AllCollected(collect, delay, verbose, k - 1);
      var p := Sampled(collect, delay, verbose, k - 1);
      var added := Sampled(collect, delay, verbose, k).added;
      assert added == p.added + [NewReport(collect(k - 1).value)];
      forall j | 0 <= j < k ensures added[j] == NewReport(collect(j).value) {
        if j < k - 1 {
          assert added[j] == p.added[j];
        }
      }
    }
  }

  lemma {:induction false} NeverEscapes(collect: nat -> Result<SwapReading>, delay: int, verbose: bool, k: nat)
    requires delay >= 0 && forall j :: 0 <= j < k ==> collect(j).Ok? || collect(j).error.kind == IOFailure
    ensures Sampled(collect, delay, verbose, k).escaped == Null
    decreases k
  {
    if k > 0 {
      NeverEscapes(collect, delay, verbose, k - 1);
    }
  }

  /** ... and, when verbose, logs every counter in turn. */
  lemma {:induction false} AllLogged(collect: nat -> Result<SwapReading>, delay: int, k: nat)
    requires delay >= 0 && forall j :: 0 <= j < k ==> collect(j).Ok?
    ensures |Sampled(collect, delay, true, k).logged| == k
    ensures forall j :: 0 <= j < k ==> Sampled(collect, delay, true, k).logged[j] == Collecting(j)
    decreases k
  {
    if k > 0 {
      AllLogged(collect, delay, k - 1);
      NeverEscapes(collect, delay, true, k - 1);
      var p := Sampled(collect, delay, true, k - 1).logged;
      var logged := Sampled(collect, delay, true, k).logged;
      assert logged == p + [Collecting(k - 1)];
      forall j | 0 <= j < k ensures logged[j] == Collecting(j) {
        if j < k - 1 {
          assert logged[j] == p[j];
        }
      }
    }
  }

  /** An `IOException` costs its sample and nothing else: the counter moves on and the
      passes after it proceed as if it had not happened. */
  lemma IOFailureSkipped(collect: nat -> Result<SwapReading>, delay: int, verbose: bool, k: nat)
    requires k > 0 && Sampled(collect, delay, verbose, k - 1).escaped.Null?
    requires collect(k - 1).Err? && collect(k - 1).error.kind == IOFailure
    ensures Sampled(collect, delay, verbose, k).escaped.Null?
    ensures Sampled(collect, delay, verbose, k).added == Sampled(collect, delay, verbose, k - 1).added
  {
  }

  // ------------------------------------------------------------ the swap summary

  /** `minSwap` after the loop over `rs`, starting from `seed`: only a smaller sample
      replaces it. */
  function Lowest(seed: int, rs: seq<Report>): int
    decreases |rs|
  {
    if |rs| == 0 then seed
    else
      var m := Lowest(seed, rs[..|rs| - 1]);
      if m > rs[|rs| - 1].usedSwap then rs[|rs| - 1].usedSwap else m
  }

  /** `maxSwap` after the loop: only a larger sample replaces it. */
  function Highest(seed: int, rs: seq<Report>): int
    decreases |rs|
  {
    if |rs| == 0 then seed
    else
      var m := Highest(seed, rs[..|rs| - 1]);
      if m < rs[|rs| - 1].usedSwap then rs[|rs| - 1].usedSwap else m
  }

  /** The minimum is at most the seed and every sample, and is one of them. */
  lemma {:induction false} LowestIsMinimum(seed: int, rs: seq<Report>)
    ensures var m := Lowest(seed, rs);
            m <= seed && (forall k :: 0 <= k < |rs| ==> m <= rs[k].usedSwap)
            && (m == seed || exists k :: 0 <= k < |rs| && m == rs[k].usedSwap)
    decreases |rs|
  {
    if |rs| > 0 {
      var init := rs[..|rs| - 1];
      LowestIsMinimum(seed, init);
      var m := Lowest(seed, init);
      if m != seed && m <= rs[|rs| - 1].usedSwap {
        var k :| 0 <= k < |init| && m == init[k].usedSwap;
        assert m == rs[k].usedSwap;
      }
      assert forall k :: 0 <= k < |init| ==> init[k] == rs[k];
    }
  }

  /** The maximum is at least the seed and every sample, and is one of them. */
  lemma {:induction false} HighestIsMaximum(seed: int, rs: seq<Report>)
    ensures var m := Highest(seed, rs);
            m >= seed && (forall k :: 0 <= k < |rs| ==> m >= rs[k].usedSwap)
            && (m == seed || exists k :: 0 <= k < |rs| && m == rs[k].usedSwap)
    decreases |rs|
  {
    if |rs| > 0 {
      var init := rs[..|rs| - 1];
      HighestIsMaximum(seed, init);
      var m := Highest(seed, init);
      if m != seed && m >= rs[|rs| - 1].usedSwap {
        var k :| 0 <= k < |init| && m == init[k].usedSwap;
        assert m == rs[k].usedSwap;
      }
      assert forall k :: 0 <= k < |init| ==> init[k] == rs[k];
    }
  }

  /** `totalSwap` after the loop: a `long` sum, wrapping on overflow. */
  function Accumulated(rs: seq<Report>): int
    decreases |rs|
  {
    if |rs| == 0 then 0 else Wrap64(Accumulated(rs[..|rs| - 1]) + rs[|rs| - 1].usedSwap)
  }

  /** The plain sum of the samples. */
  function Sum(rs: seq<Report>): int
    decreases |rs|
  {
    if |rs| == 0 then 0 else Sum(rs[..|rs| - 1]) + rs[|rs| - 1].usedSwap
  }

  lemma WrapAdd(a: int, b: int)
    ensures Wrap64(Wrap64(a) + b) == Wrap64(a + b)
  {
    var m := 0x1_0000_0000_0000_0000;
    var x := a - LongMin;
    var q := x / m;
    assert x % m == x - q * m;
    assert (x % m + b) % m == (x + b - q * m) % m == (x + b) % m;
  }

  /** The running total is the sum of the samples, wrapped to a `long` once. */
  lemma {:induction false} AccumulatedWraps(rs: seq<Report>)
    ensures Accumulated(rs) == Wrap64(Sum(rs))
    decreases |rs|
  {
    if |rs| > 0 {
      AccumulatedWraps(rs[..|rs| - 1]);
      WrapAdd(Sum(rs[..|rs| - 1]), rs[|rs| - 1].usedSwap);
    }
  }

  datatype SwapStats = SwapStats(min: int, max: int, total: int, average: int)

  /** The swap figures `report()` prints for the reports held: `minSwap` starts at the
      first sample and `maxSwap` at 0, so the maximum is never negative; the average
      is the total divided by the count, rounded toward zero. No reports at all fails
      at `reports.get(0)`. */
  function SwapStatistics(rs: seq<Report>): (r: Result<SwapStats>)
    ensures r.Err? <==> |rs| == 0
    ensures r.Err? ==> r.error.kind == IndexOutOfBounds
    ensures r.Ok? ==> (forall k :: 0 <= k < |rs| ==> r.value.min <= rs[k].usedSwap)
                      && exists k :: 0 <= k < |rs| && r.value.min == rs[k].usedSwap
    ensures r.Ok? ==> r.value.max >= 0 && (forall k :: 0 <= k < |rs| ==> r.value.max >= rs[k].usedSwap)
                      && (r.value.max == 0 || exists k :: 0 <= k < |rs| && r.value.max == rs[k].usedSwap)
    ensures r.Ok? ==> r.value.total == Wrap64(Sum(rs)) && r.value.average == TruncDiv(r.value.total, |rs|)
  {
    if |rs| == 0 then Err(Exception(IndexOutOfBounds, Null))
    else
      AccumulatedWraps(rs);
      LowestIsMinimum(rs[0].usedSwap, rs);
      HighestIsMaximum(0, rs);
      var total := Accumulated(rs);
      Ok(SwapStats(Lowest(rs[0].usedSwap, rs), Highest(0, rs), total, TruncDiv(total, |rs|)))
  }

  /** The swap alert fires exactly when the average is above 32k. */
  predicate SwapAlerted(s: SwapStats)
  {
    s.average > SwapAlertLimit
  }

  /** What `report()` logs that the model keeps: its two headings, then the swap alert
      when it fires (the per-sample and summary rows are formatted decimals). */
  function ReportLogs(r: Result<SwapStats>): seq<Message>
  {
    var head := [Bundle("report", []), Bundle("reportHeader", [])];
    if r.Ok? && SwapAlerted(r.value) then head + [Text(SwapAlert)] else head
  }

  /** A sample average of 40000 raises the alert; one of 32768 does not. */
  lemma AlertThreshold()
    ensures var s := SwapStatistics([Report(30000), Report(50000)]);
            s.Ok? && s.value.average == 40000 && SwapAlerted(s.value)
    ensures var s := SwapStatistics([Report(32768)]);
            s.Ok? && s.value.average == 32768 && !SwapAlerted(s.value)
  {
    AccumulatedWraps([Report(30000), Report(50000)]);
    assert Sum([Report(30000), Report(50000)]) == 80000 by {
      assert [Report(30000), Report(50000)][..1] == [Report(30000)];
    }
    AccumulatedWraps([Report(32768)]);
  }

  function StartLogs(p: Plan): seq<Message>
  {
    [Bundle("sampling", [DecimalString(p.samples), DecimalString(p.duration)]), Bundle("starting", [])]
  }

  function EndLogs(counter: int): seq<Message>
  {
    [Text(""), Bundle("processing", [DecimalString(counter)])]
  }

  /** The number of passes: a negative sample count runs none. */
  function Passes(p: Plan): nat
  {
    if p.samples < 0 then 0 else p.samples
  }

  /** One more report folded into the three running figures. */
  lemma LowestStep(rs: seq<Report>, i: nat)
    requires i < |rs|
    ensures var x := rs[i].usedSwap; var m := Lowest(rs[0].usedSwap, rs[..i]);
            Lowest(rs[0].usedSwap, rs[..i + 1]) == if m > x then x else m
  {
    assert rs[..i + 1][..i] == rs[..i];
  }

  lemma HighestStep(rs: seq<Report>, i: nat)
    requires i < |rs|
    ensures var x := rs[i].usedSwap; var m := Highest(0, rs[..i]);
            Highest(0, rs[..i + 1]) == if m < x then x else m
  {
    assert rs[..i + 1][..i] == rs[..i];
  }

  lemma AccumulatedStep(rs: seq<Report>, i: nat)
    requires i < |rs|
    ensures Accumulated(rs[..i + 1]) == Wrap64(Accumulated(rs[..i]) + rs[i].usedSwap)
  {
    assert rs[..i + 1][..i] == rs[..i];
  }

  /** The `for (Report r : reports)` loop of `report()`. */
  method Fold(rs: seq<Report>) returns (minSwap: int, maxSwap: int, totalSwap: int)
    requires |rs| > 0
    ensures minSwap == Lowest(rs[0].usedSwap, rs) && maxSwap == Highest(0, rs) && totalSwap == Accumulated(rs)
  {
    minSwap := rs[0].usedSwap;
    maxSwap := 0;
    totalSwap := 0;
    var index := 0;
    while index < |rs|
      invariant index <= |rs|
      invariant minSwap == Lowest(rs[0].usedSwap, rs[..index])
      invariant maxSwap == Highest(0, rs[..index])
      invariant totalSwap == Accumulated(rs[..index])
    {
      LowestStep(rs, index);
      HighestStep(rs, index);
      AccumulatedStep(rs, index);
      if minSwap > rs[index].usedSwap {
        minSwap := rs[index].usedSwap;
      }
      if maxSwap < rs[index].usedSwap {
        maxSwap := rs[index].usedSwap;
      }
      totalSwap := Wrap64(totalSwap + rs[index].usedSwap);
      index := index + 1;
    }
    assert rs[..index] == rs;
  }

  // ------------------------------------------------------------ the class

  class DiagnosticCommand {
    /** The reports of every run of this instance: the list is never cleared. */
    var reports: seq<Report>

    constructor ()
      ensures reports == []
    {
      reports := [];
    }

    /** The `while (counter < maxSamples)` loop. */
    method Sample(collect: nat -> Result<SwapReading>, delay: int, verbose: bool, n: nat)
      returns (counter: nat, logged: seq<Message>, escaped: Nullable<Exception>)
      modifies this`reports
      ensures var s := Sampled(collect, delay, verbose, n);
              reports == old(reports) + s.added && logged == s.logged && escaped == s.escaped
      ensures escaped.Null? ==> counter == n
    {
      counter := 0;
      logged := [];
      escaped := Null;
      ghost var added: seq<Report> := [];
      while counter < n
        invariant counter <= n
        invariant reports == old(reports) + added
        invariant Sampled(collect, delay, verbose, counter) == Sampling(added, logged, Null)
      {
        var got := collect(counter);
        ghost var next := Pass(Sampling(added, logged, Null), counter, got, delay, verbose);
        assert Sampled(collect, delay, verbose, counter + 1) == next;
        if verbose {
          logged := logged + [Collecting(counter)];
        }
        if got.Err? {
          if got.error.kind != IOFailure {
            escaped := NonNull(got.error);
            EscapeIsFinal(collect, delay, verbose, counter + 1, n);
            return;
          }
        } else {
          reports := reports + [NewReport(got.value)];
          added := added + [NewReport(got.value)];
          if delay < 0 {
            escaped := NonNull(Exception(IllegalArgument, NonNull(Text(NegativeTimeout))));
            EscapeIsFinal(collect, delay, verbose, counter + 1, n);
            return;
          }
        }
        counter := counter + 1;
      }
    }

    /** `report()`: the loop over every report held. */
    method Summarise() returns (r: Result<SwapStats>, logged: seq<Message>)
      ensures r == SwapStatistics(reports) && logged == ReportLogs(r)
    {
      var rs := reports;
      if |rs| == 0 {
        r := Err(Exception(IndexOutOfBounds, Null));
      } else {
        var minSwap, maxSwap, totalSwap := Fold(rs);
        r := Ok(SwapStats(minSwap, maxSwap, totalSwap, TruncDiv(totalSwap, |rs|)));
      }
      logged := ReportLogs(r);
    }

    /** `execute()`: settings, the sampling loop, then the summary of every report this
        instance holds, including those of earlier runs. `r` carries the figures
        printed, or the exception that escaped. */
    method Execute(c: CommandConfig, collect: nat -> Result<SwapReading>) returns (r: Result<SwapStats>, logged: seq<Message>)
      requires c.Valid()
      modifies this`reports
      ensures Settings(c).Err? ==> r == Err(Settings(c).error) && logged == [] && reports == old(reports)
      ensures Settings(c).Ok? ==>
                var p := Settings(c).value;
                var s := Sampled(collect, p.delay, IsOptionSet(c, NonNull("verbose")), Passes(p));
                reports == old(reports) + s.added
                && (s.escaped.NonNull? ==> r == Err(s.escaped.value) && logged == StartLogs(p) + s.logged)
                && (s.escaped.Null? ==>
                      r == SwapStatistics(reports)
                      && logged == StartLogs(p) + s.logged + EndLogs(Passes(p)) + ReportLogs(r))
    {
      var settings := Settings(c);
      if settings.Err? {
        return Err(settings.error), [];
      }
      var p := settings.value;
      logged := StartLogs(p);
      var counter, looped, escaped := Sample(collect, p.delay, IsOptionSet(c, NonNull("verbose")), Passes(p));
      logged := logged + looped;
      if escaped.NonNull? {
        return Err(escaped.value), logged;
      }
      logged := logged + EndLogs(counter);
      var reported;
      r, reported := Summarise();
      logged := logged + reported;
    }
  }

  /** Reports accumulate: a second run summarises the samples of both. */
  lemma RunsAccumulate(first: seq<Report>, second: seq<Report>)
    requires |first| > 0
    ensures SwapStatistics(first + second).Ok?
    ensures SwapStatistics(first + second).value.min <= SwapStatistics(first).value.min
    ensures SwapStatistics(first + second).value.max >= SwapStatistics(first).value.max
  {
    var all := first + second;
    var m := SwapStatistics(first).value.min;
    var k :| 0 <= k < |first| && m == first[k].usedSwap;
    assert all[k] == first[k];
    var x := SwapStatistics(first).value.max;
    if x != 0 {
      var j :| 0 <= j < |first| && x == first[j].usedSwap;
      assert all[j] == first[j];
    }
  }
}
