/** The module list of a certification (src/components/certification/ModuleProgress.tsx):
    the status of each module, the three-day exam window, the disabled rule and
    the completion check. */
module ModuleProgress {
  import opened Types
  import opened Text

  datatype ModuleStatus = Completed | Current | Available | Locked

  /** `getModuleStatus(certification.modules[index], index)`: completed wins over
      current, current over available, and a module is available when it is the
      first one or its predecessor is completed. */
  function GetModuleStatus(modules: seq<CertificationModule>, completedModules: seq<string>,
                           currentModule: Option<string>, index: nat): (r: ModuleStatus)
    requires index < |modules|
    ensures r == Completed <==> modules[index].id in completedModules
    ensures r == Current <==> modules[index].id !in completedModules && currentModule == Some(modules[index].id)
    ensures r == Available <==>
      (modules[index].id !in completedModules && currentModule != Some(modules[index].id)
       && (index == 0 || modules[index - 1].id in completedModules))
    ensures r == Locked <==>
      (modules[index].id !in completedModules && currentModule != Some(modules[index].id)
       && index > 0 && modules[index - 1].id !in completedModules)
  {
    if modules[index].id in completedModules then Completed
    else if currentModule == Some(modules[index].id) then Current
    else if index == 0 || modules[index - 1].id in completedModules then Available
    else Locked
  }

  /** The ids of a list of modules, in order. */
  function Ids(modules: seq<CertificationModule>): (r: seq<string>)
    ensures |r| == |modules|
    ensures forall i :: 0 <= i < |modules| ==> r[i] == modules[i].id
  {
    if modules == [] then [] else [modules[0].id] + Ids(modules[1..])
  }

  predicate DistinctIds(modules: seq<CertificationModule>) {
    forall i, j :: 0 <= i < j < |modules| ==> modules[i].id != modules[j].id
  }

  /** Taking the modules in order: after the first `k` are completed, those are
      completed, module `k` is current when it is the one in progress and
      available otherwise, and every later module is locked. */
  lemma SequentialGating(modules: seq<CertificationModule>, k: nat, currentModule: Option<string>)
    requires DistinctIds(modules) && k <= |modules|
    requires currentModule.Some? ==> k < |modules| && currentModule.value == modules[k].id
    ensures forall i :: 0 <= i < |modules| ==>
      GetModuleStatus(modules, Ids(modules[..k]), currentModule, i)
        == if i < k then Completed
           else if i == k then (if currentModule.Some? then Current else Available)
           else Locked
  {
    var done := Ids(modules[..k]);
    forall i | 0 <= i < |modules|
      ensures modules[i].id in done <==> i < k
    {
      if i < k {
        assert done[i] == modules[i].id;
      } else {
        forall j | 0 <= j < k ensures done[j] != modules[i].id {
          assert done[j] == modules[j].id;
        }
      }
    }
  }

  /** Completing more modules never locks a module that was open. */
  lemma GatingMonotone(modules: seq<CertificationModule>, completedModules: seq<string>, more: seq<string>,
                       currentModule: Option<string>, index: nat)
    requires index < |modules|
    requires GetModuleStatus(modules, completedModules, currentModule, index) != Locked
    ensures GetModuleStatus(modules, completedModules + more, currentModule, index) != Locked
  {
    var s := GetModuleStatus(modules, completedModules, currentModule, index);
    if s == Completed {
      assert modules[index].id in completedModules + more;
    } else if s == Available && index > 0 && modules[index - 1].id in completedModules {
      assert modules[index - 1].id in completedModules + more;
    }
  }

  /** "Certification terminée" is shown when the completed list is as long as the module list. */
  predicate CertificationComplete(modules: seq<CertificationModule>, completedModules: seq<string>) {
    |completedModules| == |modules|
  }

  /** In the sequential state the banner appears exactly when every module is completed. */
  lemma CompleteIffAllCompleted(modules: seq<CertificationModule>, k: nat)
    requires DistinctIds(modules) && k <= |modules|
    ensures CertificationComplete(modules, Ids(modules[..k])) <==>
      forall i :: 0 <= i < |modules| ==> GetModuleStatus(modules, Ids(modules[..k]), None, i) == Completed
  {
    SequentialGating(modules, k, None);
    if k < |modules| {
      assert GetModuleStatus(modules, Ids(modules[..k]), None, k) == Available;
    }
  }

  /** The check counts entries, not modules: a list repeating one id shows the
      banner while another module is not completed. */
  lemma CompleteCountsEntries()
    ensures var ms := [CertificationModule("m1", "A", 60, []), CertificationModule("m2", "B", 60, [])];
      CertificationComplete(ms, ["m1", "m1"]) && GetModuleStatus(ms, ["m1", "m1"], None, 1) == Available
  {
  }

  // ---------------------------------------------------------------------
  // The exam window

  const HourMs: int := 60 * 60 * 1000
  const DayMs: int := 24 * HourMs
  const WindowDays: int := 3

  const ExpiredLabel: string := "Expiré"

  /** Milliseconds left in the window opened at `startMs`. */
  function WindowRemaining(startMs: int, nowMs: int): int {
    startMs + WindowDays * DayMs - nowMs
  }

  predicate WindowExpired(examStart: Option<int>, nowMs: int) {
    examStart.Some? && WindowRemaining(examStart.value, nowMs) <= 0
  }

  function RemainingDays(remaining: int): int {
    remaining / DayMs
  }

  function RemainingHours(remaining: int): int {
    (remaining % DayMs) / HourMs
  }

  /** `getTimeRemaining`: nothing without a start date, "Expiré" once the window
      has closed, else the whole days and hours left; the days part is shown
      only from one day up. */
  function GetTimeRemaining(examStart: Option<int>, nowMs: int): Option<string> {
    if examStart.None? then None
    else
      var remaining := WindowRemaining(examStart.value, nowMs);
      if remaining <= 0 then Some(ExpiredLabel)
      else
        var days, hours := RemainingDays(remaining), RemainingHours(remaining);
        if days > 0 then Some(IntToString(days) + "j " + IntToString(hours) + "h restantes")
        else Some(IntToString(hours) + "h restantes")
  }

  /** Days and hours are the whole days and the whole hours of the rest; hours
      lie in 0..23, and no more than three days are shown once the window has opened. */
  lemma RemainingDecomposition(remaining: int)
    requires remaining > 0
    ensures var d, h := RemainingDays(remaining), RemainingHours(remaining);
      && 0 <= d && 0 <= h <= 23
      && d * DayMs + h * HourMs <= remaining < d * DayMs + (h + 1) * HourMs
      && (remaining <= WindowDays * DayMs ==> d <= WindowDays)
  {
    var d, r := remaining / DayMs, remaining % DayMs;
    var h, q := r / HourMs, r % HourMs;
    assert remaining == d * DayMs + r;
    assert r == h * HourMs + q;
    assert h <= 23;
  }

  /** The label is "Expiré" exactly when the window has closed, and absent
      exactly when there is no start date. */
  lemma ExpiredLabelIff(examStart: Option<int>, nowMs: int)
    ensures GetTimeRemaining(examStart, nowMs) == Some(ExpiredLabel) <==> WindowExpired(examStart, nowMs)
    ensures GetTimeRemaining(examStart, nowMs).None? <==> examStart.None?
  {
    if examStart.Some? && !WindowExpired(examStart, nowMs) {
      var shown := GetTimeRemaining(examStart, nowMs).value;
      assert |shown| >= |"h restantes"| > |ExpiredLabel|;
    }
  }

  /** An open window shows the days part ("…j ") exactly when a whole day or
      more is left. */
  lemma DaysShownIff(examStart: Option<int>, nowMs: int)
    requires examStart.Some? && !WindowExpired(examStart, nowMs)
    ensures 'j' in GetTimeRemaining(examStart, nowMs).value <==> WindowRemaining(examStart.value, nowMs) >= DayMs
  {
    var remaining := WindowRemaining(examStart.value, nowMs);
    var days, hours := RemainingDays(remaining), RemainingHours(remaining);
    RemainingDecomposition(remaining);
    var shown := GetTimeRemaining(examStart, nowMs).value;
    if days > 0 {
      assert shown[|IntToString(days)|] == 'j';
    } else {
      assert remaining < DayMs;
      NoLetterInDigits(IntToString(hours), 'j');
      assert shown == IntToString(hours) + "h restantes";
    }
  }

  /** A numeral holds no letter. */
  lemma NoLetterInDigits(s: string, c: char)
    requires AllDigits(s) && !IsDigit(c)
    ensures c !in s
  {
    forall i | 0 <= i < |s| ensures s[i] != c {
      assert IsDigit(s[i]);
    }
  }

  /** Once expired, the window stays expired. */
  lemma ExpiryIsFinal(examStart: Option<int>, nowMs: int, laterMs: int)
    requires nowMs <= laterMs && WindowExpired(examStart, nowMs)
    ensures WindowExpired(examStart, laterMs)
  {
  }

  /** `isDisabled`: the module is locked or the label reads "Expiré". */
  predicate IsDisabled(status: ModuleStatus, windowLabel: Option<string>) {
    status == Locked || windowLabel == Some(ExpiredLabel)
  }

  /** A module card is disabled exactly when the module is locked or the window has closed. */
  lemma DisabledIff(modules: seq<CertificationModule>, completedModules: seq<string>, currentModule: Option<string>,
                    index: nat, examStart: Option<int>, nowMs: int)
    requires index < |modules|
    ensures IsDisabled(GetModuleStatus(modules, completedModules, currentModule, index), GetTimeRemaining(examStart, nowMs))
      <==> GetModuleStatus(modules, completedModules, currentModule, index) == Locked || WindowExpired(examStart, nowMs)
  {
    ExpiredLabelIff(examStart, nowMs);
  }
}
