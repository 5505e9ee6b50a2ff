/**
 * The hardware and operating-system checkers: each is a decision over the
 * results of its probes (the `RtlGetVersion` record, the detected GPU, the
 * `nvidia-smi` and registry answers, the `systeminfo` and `wsl --status`
 * outputs), which are taken here as inputs.
 */
module SystemChecker {
  import opened TextOps
  import opened EnvTypes
  import opened Executor

  // ---------------------------------------------------------------------------
  // OS version

  /** The fields of `RTL_OSVERSIONINFOW` that are read. */
  datatype OSVersionInfo = OSVersionInfo(major: nat, minor: nat, build: nat)

  /** WSL2's requirement: Windows 11, or Windows 10 from build 18362 on. */
  predicate OSSupported(v: OSVersionInfo)
  {
    v.major >= 11 || (v.major == 10 && v.build >= 18362)
  }

  /** `OSVersionChecker::Check`, given the status and record `RtlGetVersion` returned. */
  function OSVersionCheck(status: int, v: OSVersionInfo): (r: ComponentResult)
    ensures r.component == OSVersion
    ensures status != 0 ==> r == FailureResult(OSVersion, "Failed to get OS version", 10)
    ensures r.status == Success <==> status == 0 && OSSupported(v)
    ensures r.status != Success ==> r.status == Failed && r.code == 10
  {
    if status != 0 then FailureResult(OSVersion, "Failed to get OS version", 10)
    else if v.major >= 11 then
      SuccessResult(OSVersion, "Windows " + NatToString(v.major) + "." + NatToString(v.minor)
        + "." + NatToString(v.build) + " (supported)")
    else if v.major == 10 then
      var supported := if v.build >= 19041 then true else if v.build >= 18362 then true else false;
      var info := "Windows 10." + NatToString(v.minor) + "." + NatToString(v.build)
        + " (" + (if supported then "supported" else "unsupported") + ")";
      if supported then SuccessResult(OSVersion, info) else FailureResult(OSVersion, info, 10)
    else
      FailureResult(OSVersion, "Windows " + NatToString(v.major) + "." + NatToString(v.minor)
        + "." + NatToString(v.build)
        + " (unsupported - requires Windows 10 build 18362+ or Windows 11)", 10)
  }

  /** Windows 11 reports major version 10 and a build from 22000 on. */
  lemma Windows11BuildSupported()
    ensures OSVersionCheck(0, OSVersionInfo(10, 0, 22631)).status == Success
    ensures OSVersionCheck(0, OSVersionInfo(10, 0, 18361)).code == 10
  {
  }

  // ---------------------------------------------------------------------------
  // GPU hardware

  /** What `GetNvidiaGPUInfo` reports. */
  datatype GPUInfo = GPUInfo(name: string, isNvidia: bool, isBlackwellSeries: bool)

  /** Professional and data-centre cards, accepted on a substring match. */
  const HighEndCards: seq<string> :=
    ["TESLA", "QUADRO RTX", "RTX A", "A100", "H100", "A40", "A30", "A10", "V100", "P100"]

  predicate OnAllowlist(upper: string)
  {
    exists c :: 0 <= c < |HighEndCards| && Contains(upper, HighEndCards[c])
  }

  /** The groups of `RTX\s*(\d+)(\d{2,3})(?:\s*(TI|SUPER))?` after a match. */
  datatype RtxMatch = RtxMatch(series: nat, model: nat, suffix: string)

  /** What any match satisfies: a two-digit model and one of the three suffixes. */
  predicate WellFormedMatch(m: RtxMatch)
  {
    m.model < 100 && (m.suffix == "" || m.suffix == "TI" || m.suffix == "SUPER")
  }

  /** `(?:\s*(TI|SUPER))?` from index `k`: the captured suffix, or "" when absent. */
  function SuffixAt(u: string, k: nat): (s: string)
    requires k <= |u|
    ensures s == "" || s == "TI" || s == "SUPER"
  {
    var j := SkipSpaces(u, k);
    if OccursAt(u, "TI", j) then "TI"
    else if OccursAt(u, "SUPER", j) then "SUPER"
    else ""
  }

  /**
   * The pattern anchored at index `i`: "RTX", optional whitespace, then a
   * maximal digit run of at least three digits. Under backtracking the greedy
   * `(\d+)` gives back exactly two digits to `(\d{2,3})`, so the series is the
   * run without its last two digits and the model is those two digits.
   */
  function RtxAt(u: string, i: nat): (m: Option<RtxMatch>)
    requires i <= |u|
    ensures m.Some? ==> OccursAt(u, "RTX", i) && WellFormedMatch(m.value)
  {
    if OccursAt(u, "RTX", i) then
      var j := SkipSpaces(u, i + 3);
      var k := DigitRunEnd(u, j);
      if k - j >= 3 then
        AllDigitsWithin(u, j, k, j, k - 2);
        AllDigitsWithin(u, j, k, k - 2, k);
        DigitsValueBound(u[k - 2..k]);
        var model := DigitsValue(u[k - 2..k]);
        Some(RtxMatch(DigitsValue(u[j..k - 2]), model, SuffixAt(u, k)))
      else None
    else None
  }

  /** `std::regex_search`: the leftmost index from `i` on at which the pattern matches. */
  function RtxSearch(u: string, i: nat): (m: Option<RtxMatch>)
    requires i <= |u|
    ensures m.Some? ==> WellFormedMatch(m.value)
    decreases |u| - i
  {
    if RtxAt(u, i).Some? then RtxAt(u, i)
    else if i == |u| then None
    else RtxSearch(u, i + 1)
  }

  /** The search returns the match at the first index where one exists, and nothing without one. */
  lemma RtxSearchFirst(u: string, i: nat)
    requires i <= |u|
    ensures RtxSearch(u, i).Some? <==> exists p :: i <= p <= |u| && RtxAt(u, p).Some?
    ensures RtxSearch(u, i).Some? ==>
      exists p :: i <= p <= |u| && RtxAt(u, p) == RtxSearch(u, i)
              && forall q :: i <= q < p ==> RtxAt(u, q).None?
  {
    RtxSearchEarliest(u, i);
    if p :| i <= p <= |u| && RtxAt(u, p).Some? {
      RtxSearchFinds(u, i, p);
    }
  }

  /** A match the search returns sits at an index with no match before it. */
  lemma {:induction false} RtxSearchEarliest(u: string, i: nat)
    requires i <= |u|
    ensures RtxSearch(u, i).Some? ==>
      exists p :: i <= p <= |u| && RtxAt(u, p) == RtxSearch(u, i)
              && forall q :: i <= q < p ==> RtxAt(u, q).None?
    decreases |u| - i
  {
    if RtxAt(u, i).Some? {
      assert RtxAt(u, i) == RtxSearch(u, i);
    } else if i < |u| {
      assert RtxSearch(u, i) == RtxSearch(u, i + 1);
      RtxSearchEarliest(u, i + 1);
      if RtxSearch(u, i + 1).Some? {
        var p :| i + 1 <= p <= |u| && RtxAt(u, p) == RtxSearch(u, i + 1)
                 && forall q :: i + 1 <= q < p ==> RtxAt(u, q).None?;
        assert forall q :: i <= q < p ==> RtxAt(u, q).None?;
      }
    }
  }

  /** A match at or after `i` is never missed. */
  lemma {:induction false} RtxSearchFinds(u: string, i: nat, p: nat)
    requires i <= p <= |u| && RtxAt(u, p).Some?
    ensures RtxSearch(u, i).Some?
    decreases p - i
  {
    if i < p && RtxAt(u, i).None? {
      RtxSearchFinds(u, i + 1, p);
    }
  }

  /** A parsed RTX name always contains "RTX". */
  lemma {:induction false} RtxSearchContainsRtx(u: string, i: nat)
    requires i <= |u|
    requires RtxSearch(u, i).Some?
    ensures Contains(u, "RTX")
    decreases |u| - i
  {
    if RtxAt(u, i).Some? {
      ContainsAt(u, "RTX", i);
    } else {
      RtxSearchContainsRtx(u, i + 1);
    }
  }

  /** The consumer-card policy; `None` where the source falls through to the later rules. */
  function RtxPolicy(m: RtxMatch): Option<bool>
  {
    if m.series >= 50 then Some(true)
    else if m.series == 40 then Some(m.model >= 60)
    else if m.series == 30 then
      if m.model > 60 then Some(true)
      else if m.model == 60 then Some(Contains(m.suffix, "TI"))
      else Some(false)
    else if m.series <= 20 then Some(false)
    else None
  }

  /** The accepted consumer cards, stated directly. */
  predicate RtxAccepted(m: RtxMatch)
  {
    m.series >= 50
    || (m.series == 40 && m.model >= 60)
    || (m.series == 30 && (m.model > 60 || (m.model == 60 && m.suffix == "TI")))
  }

  /**
   * The outcome of `IsGPUMeetsMinimumRequirement`: its boolean answer, or the
   * `std::out_of_range` that `std::stoi` throws when the series digits exceed
   * `int`, which nothing in the checker catches.
   */
  datatype Verdict = Accepted | Rejected | SeriesOutOfRange

  /** `IsGPUMeetsMinimumRequirement` on the uppercased name, in the source's rule order. */
  function MeetsMinimumUpper(u: string): Verdict
  {
    if OnAllowlist(u) then Accepted
    else
      var parsed :=
        if Contains(u, "GEFORCE") || Contains(u, "RTX") then RtxSearch(u, 0) else None;
      if parsed.Some? && parsed.value.series > IntMax then SeriesOutOfRange
      else
        var verdict := if parsed.Some? then RtxPolicy(parsed.value) else None;
        if verdict.Some? then (if verdict.value then Accepted else Rejected)
        else if Contains(u, "GTX") then Rejected
        else Rejected
  }

  function MeetsMinimumRequirement(gpuName: string): Verdict
  {
    MeetsMinimumUpper(UpperAscii(gpuName))
  }

  /** The decision depends on the name only through its ASCII uppercase form. */
  lemma MinimumRequirementCaseInsensitive(a: string, b: string)
    requires UpperAscii(a) == UpperAscii(b)
    ensures MeetsMinimumRequirement(a) == MeetsMinimumRequirement(b)
    ensures MeetsMinimumRequirement(a) == MeetsMinimumRequirement(UpperAscii(a))
  {
    UpperAsciiIdempotent(a);
  }

  /** Any allowlisted substring accepts, before any RTX parsing. */
  lemma AllowlistAccepts(gpuName: string, c: nat)
    requires c < |HighEndCards| && Contains(UpperAscii(gpuName), HighEndCards[c])
    ensures MeetsMinimumRequirement(gpuName) == Accepted
  {
  }

  /**
   * Off the allowlist, a name is accepted exactly when the leftmost RTX match
   * exists and satisfies the consumer policy, and the conversion throws
   * exactly when that match's series does not fit in `int`; a name without
   * "RTX" (every GTX card among them) is rejected.
   */
  lemma {:induction false} RtxRule(gpuName: string)
    requires !OnAllowlist(UpperAscii(gpuName))
    ensures var m := RtxSearch(UpperAscii(gpuName), 0);
      && (MeetsMinimumRequirement(gpuName) == Accepted <==>
            m.Some? && m.value.series <= IntMax && RtxAccepted(m.value))
      && (MeetsMinimumRequirement(gpuName) == SeriesOutOfRange <==>
            m.Some? && m.value.series > IntMax)
    ensures !Contains(UpperAscii(gpuName), "RTX") ==> MeetsMinimumRequirement(gpuName) == Rejected
  {
    var u := UpperAscii(gpuName);
    var m := RtxSearch(u, 0);
    if m.Some? {
      RtxSearchContainsRtx(u, 0);
      var s := m.value.suffix;
      assert Contains(s, "TI") <==> s == "TI" by {
        if s == "SUPER" {
          NotContainsPick(s, "TI", 0, 0);
        } else if s == "TI" {
          ContainsAt(s, "TI", 0);
        }
      }
    }
  }

  /**
   * A name is off the allowlist when it has no 'Q', 'H' or 'P', no "TE", no
   * 'A' or 'V' followed by a digit, and no 'R' four places before an 'A'.
   */
  lemma OffAllowlist(u: string)
    requires forall j :: 0 <= j < |u| ==> u[j] != 'Q' && u[j] != 'H' && u[j] != 'P'
    requires forall j :: 0 <= j < |u| - 1 ==>
      (u[j] == 'T' ==> u[j + 1] != 'E') && (u[j] == 'A' || u[j] == 'V' ==> !IsDigit(u[j + 1]))
    requires forall j :: 0 <= j < |u| - 4 ==> u[j] == 'R' ==> u[j + 4] != 'A'
    ensures !OnAllowlist(u)
  {
    NotContainsPick(u, "TESLA", 0, 1);
    NotContainsPick(u, "QUADRO RTX", 0, 0);
    NotContainsPick(u, "RTX A", 0, 4);
    NotContainsPick(u, "A100", 0, 1);
    NotContainsPick(u, "H100", 0, 0);
    NotContainsPick(u, "A40", 0, 1);
    NotContainsPick(u, "A30", 0, 1);
    NotContainsPick(u, "A10", 0, 1);
    NotContainsPick(u, "V100", 0, 1);
    NotContainsPick(u, "P100", 0, 0);
  }

  /** The search passes over a stretch in which no 'R' is followed by 'T'. */
  lemma {:induction false} RtxSearchSkip(u: string, i: nat, p: nat)
    requires i <= p < |u|
    requires forall q :: i <= q < p ==> u[q] != 'R' || u[q + 1] != 'T'
    ensures RtxSearch(u, i) == RtxSearch(u, p)
    decreases p - i
  {
    if i < p {
      if i + 3 <= |u| {
        var w := u[i..i + 3];
        assert w[0] == u[i] && w[1] == u[i + 1];
      }
      assert !OccursAt(u, "RTX", i);
      RtxSearchSkip(u, i + 1, p);
    }
  }

  // Worked cases: four consumer GeForce names, uppercased.
  const Rtx3060Ti := "NVIDIA GEFORCE RTX 3060 TI"
  const Rtx3060 := "NVIDIA GEFORCE RTX 3060"
  const Rtx3050 := "NVIDIA GEFORCE RTX 3050"
  const Rtx4070 := "NVIDIA GEFORCE RTX 4070"

  lemma UppercaseRtx3060Ti()
    ensures UpperAscii("NVIDIA GeForce RTX 3060 Ti") == Rtx3060Ti
  {
  }

  lemma UppercaseRtx3060()
    ensures UpperAscii("NVIDIA GeForce RTX 3060") == Rtx3060
  {
  }

  lemma UppercaseRtx3050()
    ensures UpperAscii("NVIDIA GeForce RTX 3050") == Rtx3050
  {
  }

  lemma UppercaseRtx4070()
    ensures UpperAscii("NVIDIA GeForce RTX 4070") == Rtx4070
  {
  }

  lemma OffAllowlistRtx3060Ti()
    ensures !OnAllowlist(Rtx3060Ti)
  {
    OffAllowlist(Rtx3060Ti);
  }

  lemma SkipRtx3060Ti()
    ensures RtxSearch(Rtx3060Ti, 0) == RtxSearch(Rtx3060Ti, 15)
  {
    RtxSearchSkip(Rtx3060Ti, 0, 15);
  }

  lemma MatchRtx3060Ti()
    ensures RtxAt(Rtx3060Ti, 15) == Some(RtxMatch(30, 60, "TI"))
  {
    assert OccursAt(Rtx3060Ti, "RTX", 15);
    assert SkipSpaces(Rtx3060Ti, 19) == 19;
    assert SkipSpaces(Rtx3060Ti, 18) == 19;
    assert DigitRunEnd(Rtx3060Ti, 23) == 23;
    assert DigitRunEnd(Rtx3060Ti, 22) == 23;
    assert DigitRunEnd(Rtx3060Ti, 21) == 23;
    assert DigitRunEnd(Rtx3060Ti, 20) == 23;
    assert DigitRunEnd(Rtx3060Ti, 19) == 23;
    assert Rtx3060Ti[19..21] == "30";
    assert DigitsValue("3") == 3;
    assert DigitsValue("30") == 30;
    assert Rtx3060Ti[21..23] == "60";
    assert DigitsValue("6") == 6;
    assert DigitsValue("60") == 60;
    assert SkipSpaces(Rtx3060Ti, 24) == 24;
    assert SkipSpaces(Rtx3060Ti, 23) == 24;
    assert OccursAt(Rtx3060Ti, "TI", 24);
  }

  lemma OffAllowlistRtx3060()
    ensures !OnAllowlist(Rtx3060)
  {
    OffAllowlist(Rtx3060);
  }

  lemma SkipRtx3060()
    ensures RtxSearch(Rtx3060, 0) == RtxSearch(Rtx3060, 15)
  {
    RtxSearchSkip(Rtx3060, 0, 15);
  }

  lemma MatchRtx3060()
    ensures RtxAt(Rtx3060, 15) == Some(RtxMatch(30, 60, ""))
  {
    assert OccursAt(Rtx3060, "RTX", 15);
    assert SkipSpaces(Rtx3060, 19) == 19;
    assert SkipSpaces(Rtx3060, 18) == 19;
    assert DigitRunEnd(Rtx3060, 23) == 23;
    assert DigitRunEnd(Rtx3060, 22) == 23;
    assert DigitRunEnd(Rtx3060, 21) == 23;
    assert DigitRunEnd(Rtx3060, 20) == 23;
    assert DigitRunEnd(Rtx3060, 19) == 23;
    assert Rtx3060[19..21] == "30";
    assert DigitsValue("3") == 3;
    assert DigitsValue("30") == 30;
    assert Rtx3060[21..23] == "60";
    assert DigitsValue("6") == 6;
    assert DigitsValue("60") == 60;
  }

  lemma OffAllowlistRtx3050()
    ensures !OnAllowlist(Rtx3050)
  {
    OffAllowlist(Rtx3050);
  }

  lemma SkipRtx3050()
    ensures RtxSearch(Rtx3050, 0) == RtxSearch(Rtx3050, 15)
  {
    RtxSearchSkip(Rtx3050, 0, 15);
  }

  lemma MatchRtx3050()
    ensures RtxAt(Rtx3050, 15) == Some(RtxMatch(30, 50, ""))
  {
    assert OccursAt(Rtx3050, "RTX", 15);
    assert SkipSpaces(Rtx3050, 19) == 19;
    assert SkipSpaces(Rtx3050, 18) == 19;
    assert DigitRunEnd(Rtx3050, 23) == 23;
    assert DigitRunEnd(Rtx3050, 22) == 23;
    assert DigitRunEnd(Rtx3050, 21) == 23;
    assert DigitRunEnd(Rtx3050, 20) == 23;
    assert DigitRunEnd(Rtx3050, 19) == 23;
    assert Rtx3050[19..21] == "30";
    assert DigitsValue("3") == 3;
    assert DigitsValue("30") == 30;
    assert Rtx3050[21..23] == "50";
    assert DigitsValue("5") == 5;
    assert DigitsValue("50") == 50;
  }

  lemma OffAllowlistRtx4070()
    ensures !OnAllowlist(Rtx4070)
  {
    OffAllowlist(Rtx4070);
  }

  lemma SkipRtx4070()
    ensures RtxSearch(Rtx4070, 0) == RtxSearch(Rtx4070, 15)
  {
    RtxSearchSkip(Rtx4070, 0, 15);
  }

  lemma MatchRtx4070()
    ensures RtxAt(Rtx4070, 15) == Some(RtxMatch(40, 70, ""))
  {
    assert OccursAt(Rtx4070, "RTX", 15);
    assert SkipSpaces(Rtx4070, 19) == 19;
    assert SkipSpaces(Rtx4070, 18) == 19;
    assert DigitRunEnd(Rtx4070, 23) == 23;
    assert DigitRunEnd(Rtx4070, 22) == 23;
    assert DigitRunEnd(Rtx4070, 21) == 23;
    assert DigitRunEnd(Rtx4070, 20) == 23;
    assert DigitRunEnd(Rtx4070, 19) == 23;
    assert Rtx4070[19..21] == "40";
    assert DigitsValue("4") == 4;
    assert DigitsValue("40") == 40;
    assert Rtx4070[21..23] == "70";
    assert DigitsValue("7") == 7;
    assert DigitsValue("70") == 70;
  }

  /** The specification's worked cases for consumer GeForce cards. */
  lemma GPUScenarios()
    ensures MeetsMinimumRequirement("NVIDIA GeForce RTX 3060 Ti") == Accepted
    ensures MeetsMinimumRequirement("NVIDIA GeForce RTX 3060") == Rejected
    ensures MeetsMinimumRequirement("NVIDIA GeForce RTX 3050") == Rejected
    ensures MeetsMinimumRequirement("NVIDIA GeForce RTX 4070") == Accepted
  {
    UppercaseRtx3060Ti();
    UppercaseRtx3060();
    UppercaseRtx3050();
    UppercaseRtx4070();
    OffAllowlistRtx3060Ti();
    SkipRtx3060Ti();
    MatchRtx3060Ti();
    RtxRule("NVIDIA GeForce RTX 3060 Ti");
    OffAllowlistRtx3060();
    SkipRtx3060();
    MatchRtx3060();
    RtxRule("NVIDIA GeForce RTX 3060");
    OffAllowlistRtx3050();
    SkipRtx3050();
    MatchRtx3050();
    RtxRule("NVIDIA GeForce RTX 3050");
    OffAllowlistRtx4070();
    SkipRtx4070();
    MatchRtx4070();
    RtxRule("NVIDIA GeForce RTX 4070");
  }

  /**
   * `IsGPUMeetsMinimumRequirement` as written: uppercase a copy in place, scan
   * the allowlist with early return, then apply the RTX rules.
   */
  method IsGPUMeetsMinimumRequirement(gpuName: string) returns (verdict: Verdict)
    ensures verdict == MeetsMinimumRequirement(gpuName)
  {
    var upper := gpuName;
    var i := 0;
    while i < |upper|
      invariant 0 <= i <= |upper| == |gpuName|
      invariant forall j :: 0 <= j < i ==> upper[j] == UpperChar(gpuName[j])
      invariant forall j :: i <= j < |upper| ==> upper[j] == gpuName[j]
    {
      upper := upper[i := UpperChar(upper[i])];
      i := i + 1;
    }
    assert upper == UpperAscii(gpuName);

    var c := 0;
    while c < |HighEndCards|
      invariant 0 <= c <= |HighEndCards|
      invariant forall j :: 0 <= j < c ==> !Contains(upper, HighEndCards[j])
    {
      if Contains(upper, HighEndCards[c]) {
        return Accepted;
      }
      c := c + 1;
    }

    if Contains(upper, "GEFORCE") || Contains(upper, "RTX") {
      var found := RtxSearch(upper, 0);
      if found.Some? {
        var m := found.value;
        if m.series > IntMax {
          return SeriesOutOfRange;
        }
        if m.series >= 50 {
          return Accepted;
        }
        if m.series == 40 {
          return if m.model >= 60 then Accepted else Rejected;
        }
        if m.series == 30 {
          if m.model > 60 {
            return Accepted;
          } else if m.model == 60 {
            return if Contains(m.suffix, "TI") then Accepted else Rejected;
          } else {
            return Rejected;
          }
        }
        if m.series <= 20 {
          return Rejected;
        }
      }
    }

    if Contains(upper, "GTX") {
      return Rejected;
    }
    return Rejected;
  }

  const BlackwellSuffix := " (Blackwell series - will use blackwell image)"
  const HopperSuffix := " (will use hopper image)"

  /**
   * `NvidiaGPUChecker::Check` over the detected GPU; `None` when the
   * requirement test throws and the exception leaves the checker.
   */
  function GPUCheck(info: GPUInfo): (r: Option<ComponentResult>)
    ensures r.None? <==> info.isNvidia && MeetsMinimumRequirement(info.name) == SeriesOutOfRange
    ensures !info.isNvidia ==> r == Some(FailureResult(NvidiaGPU, "No NVIDIA GPU detected", 7))
    ensures info.isNvidia && MeetsMinimumRequirement(info.name) == Rejected ==>
      r == Some(FailureResult(NvidiaGPU, "GPU below minimum requirement: " + info.name, 8))
    ensures r.Some? ==> r.value.component == NvidiaGPU
    ensures r.Some? ==>
      (r.value.status == Success <==> info.isNvidia && MeetsMinimumRequirement(info.name) == Accepted)
    ensures r.Some? && r.value.status == Success ==>
      r.value.message == "Compatible NVIDIA GPU detected: " + info.name
                         + (if info.isBlackwellSeries then BlackwellSuffix else HopperSuffix)
  {
    if !info.isNvidia then Some(FailureResult(NvidiaGPU, "No NVIDIA GPU detected", 7))
    else
      match MeetsMinimumRequirement(info.name)
      case SeriesOutOfRange => None
      case Rejected =>
        Some(FailureResult(NvidiaGPU, "GPU below minimum requirement: " + info.name, 8))
      case Accepted =>
        var message := "Compatible NVIDIA GPU detected: " + info.name;
        Some(SuccessResult(NvidiaGPU,
          if info.isBlackwellSeries then message + BlackwellSuffix else message + HopperSuffix))
  }

  // ---------------------------------------------------------------------------
  // GPU driver

  /** What `GetCUDAInfo` reports. */
  datatype CUDAInfo = CUDAInfo(version: string, isValidVersion: bool)

  const CudaVersionWarning := " (WARNING: CUDA version should be 12.8.x or 12.9.x)"

  /**
   * `NvidiaDriverChecker::Check`: `smi` is the answer to the `nvidia-smi`
   * query, `registryVersion` the `Version` value under the NVIDIA display
   * driver key (`None` when the key cannot be opened or the value read).
   */
  function DriverCheck(smi: Response, cuda: CUDAInfo, registryVersion: Option<string>): (r: ComponentResult)
    ensures r.component == NvidiaDriver
    ensures r.status == Success <==>
      (smi.code == 0 && StripSpaces(smi.output) != "") || registryVersion.Some?
    ensures r.status != Success ==> r.status == Failed && r.code == 20
    ensures smi.code == 0 && StripSpaces(smi.output) != "" ==>
      r.message == "NVIDIA driver: " + StripSpaces(smi.output) + ", CUDA toolkit: " + cuda.version
        + (if !cuda.isValidVersion && cuda.version != "Not detected" then CudaVersionWarning else "")
    ensures !(smi.code == 0 && StripSpaces(smi.output) != "") && registryVersion.Some? ==>
      r.message == "NVIDIA driver installed (registry version: " + registryVersion.value + ")"
  {
    var smiAnswered := smi.code == 0 && smi.output != "";
    var driverVersion := StripSpaces(smi.output);
    if smiAnswered && driverVersion != "" then
      var message := "NVIDIA driver: " + driverVersion + ", CUDA toolkit: " + cuda.version;
      SuccessResult(NvidiaDriver,
        if !cuda.isValidVersion && cuda.version != "Not detected" then message + CudaVersionWarning
        else message)
    else if registryVersion.Some? then
      SuccessResult(NvidiaDriver,
        "NVIDIA driver installed (registry version: " + registryVersion.value + ")")
    else
      FailureResult(NvidiaDriver,
        "NVIDIA driver not found. Please install NVIDIA graphics driver first.", 20)
  }

  // ---------------------------------------------------------------------------
  // BIOS virtualization

  const FirmwareYes := "Virtualization Enabled In Firmware: Yes"
  const FirmwareNo := "Virtualization Enabled In Firmware: No"

  /** The `wsl --status` phrases that mean virtualization is off. */
  const WslVirtualizationErrors: seq<string> := [
    "ensure virtualization is enabled in the BIOS",
    "WSL2 is not supported with your current machine configuration",
    "virtualization is not enabled"]

  predicate ReportsVirtualizationError(output: string)
  {
    exists p :: 0 <= p < |WslVirtualizationErrors| && Contains(output, WslVirtualizationErrors[p])
  }

  const VirtualizationOff :=
    "BIOS virtualization is not enabled. Please restart your computer and enable virtualization in BIOS settings."

  /** `systeminfo` settles the question when it ran and shows either firmware line. */
  predicate SysteminfoDecides(systeminfo: Response)
  {
    systeminfo.code == 0 && (Contains(systeminfo.output, FirmwareYes) || Contains(systeminfo.output, FirmwareNo))
  }

  /**
   * `BIOSVirtualizationChecker::Check` over the answers of `systeminfo` and of
   * `wsl --status` (the latter is asked only when the former does not decide).
   */
  function BIOSCheck(systeminfo: Response, wslStatus: Response): (r: ComponentResult)
    ensures r.component == BIOSVirtualization
    ensures r.status == Success || (r.status == Failed && r.code == 20)
    ensures systeminfo.code == 0 && Contains(systeminfo.output, FirmwareYes) ==>
      r == SuccessResult(BIOSVirtualization, "BIOS virtualization is enabled")
    ensures systeminfo.code == 0 && !Contains(systeminfo.output, FirmwareYes)
            && Contains(systeminfo.output, FirmwareNo) ==>
      r == FailureResult(BIOSVirtualization, VirtualizationOff, 20)
    ensures !SysteminfoDecides(systeminfo) ==>
      (r.status == Failed <==> wslStatus.code == 0 && ReportsVirtualizationError(wslStatus.output))
    ensures !SysteminfoDecides(systeminfo) && wslStatus.code == 0 && !ReportsVirtualizationError(wslStatus.output) ==>
      r == SuccessResult(BIOSVirtualization, "BIOS virtualization is enabled")
    ensures !SysteminfoDecides(systeminfo) && wslStatus.code == 0 && ReportsVirtualizationError(wslStatus.output) ==>
      r == FailureResult(BIOSVirtualization, VirtualizationOff, 20)
    ensures !SysteminfoDecides(systeminfo) && wslStatus.code != 0 ==>
      r == SuccessResult(BIOSVirtualization,
        "BIOS virtualization status check completed (unable to verify definitively)")
  {
    if systeminfo.code == 0 && Contains(systeminfo.output, FirmwareYes) then
      SuccessResult(BIOSVirtualization, "BIOS virtualization is enabled")
    else if systeminfo.code == 0 && Contains(systeminfo.output, FirmwareNo) then
      FailureResult(BIOSVirtualization, VirtualizationOff, 20)
    else if wslStatus.code == 0 then
      if Contains(wslStatus.output, WslVirtualizationErrors[0])
         || Contains(wslStatus.output, WslVirtualizationErrors[1])
         || Contains(wslStatus.output, WslVirtualizationErrors[2]) then
        FailureResult(BIOSVirtualization, VirtualizationOff, 20)
      else
        SuccessResult(BIOSVirtualization, "BIOS virtualization is enabled")
    else
      SuccessResult(BIOSVirtualization,
        "BIOS virtualization status check completed (unable to verify definitively)")
  }

  const SysteminfoQuery := Invocation("systeminfo", PowerShell)
  const WslStatusQuery := Invocation("wsl --status", PowerShell)

  /**
   * The checker against the executor: `systeminfo` first, and `wsl --status`
   * only when `systeminfo` does not decide.
   */
  function BIOSCheckRun(w: World): (out: (ComponentResult, World))
    ensures var systeminfo := w.answer(|w.log|, SysteminfoQuery);
      && out.1.answer == w.answer
      && out.0 == BIOSCheck(systeminfo, w.answer(|w.log| + 1, WslStatusQuery))
      && (SysteminfoDecides(systeminfo) ==> out.1.log == w.log + [SysteminfoQuery])
      && (!SysteminfoDecides(systeminfo) ==> out.1.log == w.log + [SysteminfoQuery, WslStatusQuery])
  {
    var (systeminfo, w1) := Run(w, SysteminfoQuery);
    if systeminfo.code == 0 && Contains(systeminfo.output, FirmwareYes) then
      (SuccessResult(BIOSVirtualization, "BIOS virtualization is enabled"), w1)
    else if systeminfo.code == 0 && Contains(systeminfo.output, FirmwareNo) then
      (FailureResult(BIOSVirtualization, VirtualizationOff, 20), w1)
    else
      var (wslStatus, w2) := Run(w1, WslStatusQuery);
      (BIOSCheck(systeminfo, wslStatus), w2)
  }
}
