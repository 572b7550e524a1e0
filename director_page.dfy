/** The virtual-director page: the analysis step machine
    `upload -> processing -> vnd -> np -> summary -> complete`, the result it
    produces and keeps in browser storage, the step indicator and progress
    ring derived from the step, and the "play each tab's audio once" flags.
    React effects are methods the environment calls after the state they
    depend on has changed; timers fire at once. */
module DirectorPage {
  import opened Wrappers
  import opened Text

  datatype Step = Upload | Processing | VndStep | NpStep | SummaryStep | Complete
  datatype Tab = SummaryTab | VndTab | NpTab

  /** `AnalysisResult`; the timestamp is kept as the text of the date. */
  datatype AnalysisResult = AnalysisResult(
    vnd: string, np: string, summary: string,
    fileName: Option<string>, timestamp: Option<string>)

  /** `Partial<AnalysisResult>` as `JSON.parse` returns it from storage. */
  datatype StoredRecord = StoredRecord(
    vnd: Option<string>, np: Option<string>, summary: Option<string>,
    fileName: Option<string>, timestamp: Option<string>)

  /** The three demonstration texts the page shows as its analysis. */
  datatype MockData = MockData(vnd: string, np: string, summary: string)

  /** What the analysis run may throw: an `Error` with its message, or any
      other value. */
  datatype Fault = ErrorObject(message: string) | OtherValue

  /** A throw during the run: `wait` is the index (0 to 3) of the delay that
      rejects. */
  datatype Interruption = Interruption(wait: nat, fault: Fault)

  const StorageKey: string := "virtual-director-analysis-history"
  const TextInputName: string := "Текстовый ввод"
  const DemoName: string := "Демонстрационный режим"
  const GenericFailure: string := "Произошла ошибка при анализе документа"

  /** The steps a complete run passes through after the start. */
  const Progression: seq<Step> := [Processing, VndStep, NpStep, SummaryStep, Complete]

  /** `file?.name || (content.trim() ? 'Текстовый ввод' : 'Демонстрационный режим')` */
  function FileNameFor(file: Option<string>, content: string): (r: string)
    ensures file.Some? && file.value != "" ==> r == file.value
    ensures file.None? || file.value == "" ==>
      (r == TextInputName <==> !Blank(ECMAScript, content))
      && (r == DemoName <==> Blank(ECMAScript, content))
  {
    if file.Some? && file.value != "" then file.value
    else if Trim(ECMAScript, content) != "" then TextInputName
    else DemoName
  }

  /** The message the `catch` shows. */
  function FailureMessage(f: Fault): (r: string)
    ensures f.ErrorObject? ==> r == f.message
    ensures f.OtherValue? ==> r == GenericFailure
  {
    match f
    case ErrorObject(m) => m
    case OtherValue => GenericFailure
  }

  /** Missing stored fields fall back to the demonstration texts; the
      timestamp survives only when it is a non-empty text. */
  function Restore(record: StoredRecord, mocks: MockData): (r: AnalysisResult)
    ensures r.vnd == record.vnd.GetOr(mocks.vnd)
    ensures r.np == record.np.GetOr(mocks.np)
    ensures r.summary == record.summary.GetOr(mocks.summary)
    ensures r.fileName == record.fileName
    ensures r.timestamp.Some? <==> record.timestamp.Some? && record.timestamp.value != ""
    ensures r.timestamp.Some? ==> r.timestamp == record.timestamp
  {
    AnalysisResult(
      record.vnd.GetOr(mocks.vnd),
      record.np.GetOr(mocks.np),
      record.summary.GetOr(mocks.summary),
      record.fileName,
      if record.timestamp.Some? && record.timestamp.value != "" then record.timestamp else None)
  }

  // ---------------------------------------------------------------------
  // Step indicator and progress ring

  /** The flags of one `StepRow`. */
  datatype RowState = RowState(active: bool, done: bool, idle: bool)

  /** The four rows' flag expressions; row 0 is preparation, then the
      internal-documents, legal and decision rows. */
  function Row(row: nat, step: Step): RowState
    requires row < 4
  {
    if row == 0 then
      RowState(step == Processing, step == VndStep || step == NpStep || step == SummaryStep, step == Upload)
    else if row == 1 then
      RowState(step == VndStep, step == NpStep || step == SummaryStep, step == Upload || step == Processing)
    else if row == 2 then
      RowState(step == NpStep, step == SummaryStep, step == Upload || step == Processing || step == VndStep)
    else
      RowState(step == SummaryStep, false,
               step == Upload || step == Processing || step == VndStep || step == NpStep)
  }

  /** Position of a step in the progression, `upload` being 0. */
  function StepIndex(step: Step): (i: nat)
    ensures i <= 5
    ensures i == 5 <==> step == Complete
  {
    match step
    case Upload => 0
    case Processing => 1
    case VndStep => 2
    case NpStep => 3
    case SummaryStep => 4
    case Complete => 5
  }

  /** Row `row` stands for the step at index `row + 1`: it is done once the
      machine is past that step, active on it and idle before it. */
  lemma RowFollowsStepOrder(row: nat, step: Step)
    requires row < 4 && step != Complete
    ensures Row(row, step) == RowState(StepIndex(step) == row + 1,
                                       StepIndex(step) > row + 1,
                                       StepIndex(step) < row + 1)
  {
  }

  /** While the rows are shown, each has exactly one of its three flags. */
  lemma ExactlyOneFlag(row: nat, step: Step)
    requires row < 4 && step != Complete
    ensures var s := Row(row, step);
      (s.active && !s.done && !s.idle) || (!s.active && s.done && !s.idle) || (!s.active && !s.done && s.idle)
  {
    RowFollowsStepOrder(row, step);
  }

  /** No two rows are active together. */
  lemma AtMostOneActiveRow(row1: nat, row2: nat, step: Step)
    requires row1 < 4 && row2 < 4 && step != Complete
    requires Row(row1, step).active && Row(row2, step).active
    ensures row1 == row2
  {
    RowFollowsStepOrder(row1, step);
    RowFollowsStepOrder(row2, step);
  }

  /** Reading down the rows: done rows, then the active one, then idle rows. */
  lemma RowsInOrder(row1: nat, row2: nat, step: Step)
    requires row1 < row2 < 4 && step != Complete
    ensures Row(row2, step).done ==> Row(row1, step).done
    ensures Row(row2, step).active ==> Row(row1, step).done
    ensures Row(row1, step).idle ==> Row(row2, step).idle
    ensures Row(row1, step).active ==> Row(row2, step).idle
  {
    RowFollowsStepOrder(row1, step);
    RowFollowsStepOrder(row2, step);
  }

  /** The filled share of the progress ring, in quarters. */
  function ProgressQuarters(step: Step): (q: nat)
    ensures q <= 4
    ensures step != Complete ==> q == StepIndex(step)
    ensures step == Complete ==> q == 0
  {
    match step
    case Upload => 0
    case Processing => 1
    case VndStep => 2
    case NpStep => 3
    case SummaryStep => 4
    case Complete => 0
  }

  // ---------------------------------------------------------------------
  // The page

  class Page {
    var file: Option<string>         // the chosen file, by name
    var content: string
    var result: Option<AnalysisResult>
    var activeTab: Tab
    var step: Step
    var errorMessage: Option<string>
    var summaryPlayed: bool          // `audioItogPlayedRef.current`
    var vndPlayed: bool              // `audioVndPlayedRef.current`
    var npPlayed: bool               // `audioNpaPlayedRef.current`
    var storage: map<string, string> // the browser's `localStorage`
    const mocks: MockData

    /** The results view is shown exactly when there is a result. */
    predicate Valid()
      reads this
    {
      step == Complete <==> result.Some?
    }

    function Played(tab: Tab): bool
      reads this
    {
      match tab
      case SummaryTab => summaryPlayed
      case VndTab => vndPlayed
      case NpTab => npPlayed
    }

    /** The first render, before any effect has run. */
    constructor(mocks: MockData, storage: map<string, string>)
      ensures Valid()
      ensures this.mocks == mocks && this.storage == storage
      ensures file == None && content == "" && result == None && activeTab == SummaryTab
      ensures step == Upload && errorMessage == None
      ensures !summaryPlayed && !vndPlayed && !npPlayed
    {
      this.mocks := mocks;
      this.storage := storage;
      file := None;
      content := "";
      result := None;
      activeTab := SummaryTab;
      step := Upload;
      errorMessage := None;
      summaryPlayed, vndPlayed, npPlayed := false, false, false;
    }

    /** The mount effect: a stored analysis (a non-empty entry that parses)
        is shown as complete, and its audio counts as already played. */
    method LoadEffect(decode: string -> Option<StoredRecord>)
      requires Valid()
      modifies this
      ensures Valid()
      ensures var stored := StorageKey in storage && storage[StorageKey] != "";
        if stored && decode(storage[StorageKey]).Some? then
          && result == Some(Restore(decode(storage[StorageKey]).value, mocks))
          && step == Complete
          && summaryPlayed && vndPlayed && npPlayed
        else
          && result == old(result) && step == old(step)
          && summaryPlayed == old(summaryPlayed) && vndPlayed == old(vndPlayed) && npPlayed == old(npPlayed)
      ensures file == old(file) && content == old(content) && activeTab == old(activeTab)
      ensures errorMessage == old(errorMessage) && storage == old(storage)
    {
      if StorageKey in storage && storage[StorageKey] != "" {
        var parsed := decode(storage[StorageKey]);
        if parsed.Some? {
          result := Some(Restore(parsed.value, mocks));
          step := Complete;
          summaryPlayed, vndPlayed, npPlayed := true, true, true;
        }
      }
    }

    /** The persistence effect: the result is written only once the run is
        complete; `encode` is `JSON.stringify`. */
    method PersistEffect(encode: AnalysisResult -> string)
      modifies this
      ensures result.Some? && step == Complete ==> storage == old(storage)[StorageKey := encode(result.value)]
      ensures !(result.Some? && step == Complete) ==> storage == old(storage)
      ensures file == old(file) && content == old(content) && result == old(result)
      ensures activeTab == old(activeTab) && step == old(step) && errorMessage == old(errorMessage)
      ensures summaryPlayed == old(summaryPlayed) && vndPlayed == old(vndPlayed) && npPlayed == old(npPlayed)
    {
      if result.Some? && step == Complete {
        storage := storage[StorageKey := encode(result.value)];
      }
    }

    /** One tab's audio effect: it plays only on the results view, on its
        own tab, and only if it has not played yet; playing sets the flag.
        `plays` says whether it played. */
    method AudioEffect(tab: Tab) returns (plays: bool)
      modifies this
      ensures plays <==> step == Complete && activeTab == tab && !old(Played(tab))
      ensures Played(tab) == (old(Played(tab)) || plays)
      ensures forall t :: t != tab ==> Played(t) == old(Played(t))
      ensures file == old(file) && content == old(content) && result == old(result)
      ensures activeTab == old(activeTab) && step == old(step) && errorMessage == old(errorMessage)
      ensures storage == old(storage)
    {
      plays := step == Complete && activeTab == tab && !Played(tab);
      if plays {
        match tab
        case SummaryTab => summaryPlayed := true;
        case VndTab => vndPlayed := true;
        case NpTab => npPlayed := true;
      }
    }

    /** A tab button. */
    method SelectTab(tab: Tab)
      modifies this
      ensures activeTab == tab
      ensures file == old(file) && content == old(content) && result == old(result)
      ensures step == old(step) && errorMessage == old(errorMessage) && storage == old(storage)
      ensures summaryPlayed == old(summaryPlayed) && vndPlayed == old(vndPlayed) && npPlayed == old(npPlayed)
    {
      activeTab := tab;
    }

    /** Choosing a file: its name, and its text once read into the editor
        (the decoding itself is not modelled). */
    method ChooseFile(name: string, text: string)
      modifies this
      ensures file == Some(name) && content == text
      ensures result == old(result) && activeTab == old(activeTab) && step == old(step)
      ensures errorMessage == old(errorMessage) && storage == old(storage)
      ensures summaryPlayed == old(summaryPlayed) && vndPlayed == old(vndPlayed) && npPlayed == old(npPlayed)
    {
      file := Some(name);
      content := text;
    }

    /** Typing into the text area. */
    method EditContent(text: string)
      modifies this
      ensures content == text
      ensures file == old(file) && result == old(result) && activeTab == old(activeTab) && step == old(step)
      ensures errorMessage == old(errorMessage) && storage == old(storage)
      ensures summaryPlayed == old(summaryPlayed) && vndPlayed == old(vndPlayed) && npPlayed == old(npPlayed)
    {
      content := text;
    }

    /** `handleAnalyze`.  It does nothing without a file or non-blank
        content; otherwise it clears the error and walks the steps, one per
        delay, and ends with the demonstration result.  A throw puts the
        page back on `upload` with the error shown.  `visited` lists the
        steps in the order they were set.  Only the start button, enabled on
        `upload` alone, calls it. */
    method Analyze(now: string, interruption: Option<Interruption>) returns (visited: seq<Step>)
      requires Valid() && step == Upload
      requires interruption.Some? ==> interruption.value.wait < 4
      modifies this
      ensures Valid()
      ensures old(file).None? && Blank(ECMAScript, old(content)) ==>
        visited == [] && step == Upload && errorMessage == old(errorMessage) && result == None
      ensures !(old(file).None? && Blank(ECMAScript, old(content))) && interruption.None? ==>
        && visited == Progression
        && step == Complete && errorMessage == None
        && result == Some(AnalysisResult(mocks.vnd, mocks.np, mocks.summary,
                                         Some(FileNameFor(file, content)), Some(now)))
      ensures !(old(file).None? && Blank(ECMAScript, old(content))) && interruption.Some? ==>
        && visited == Progression[..interruption.value.wait + 1] + [Upload]
        && step == Upload && result == None
        && errorMessage == Some(FailureMessage(interruption.value.fault))
      ensures file == old(file) && content == old(content) && activeTab == old(activeTab)
      ensures storage == old(storage)
      ensures summaryPlayed == old(summaryPlayed) && vndPlayed == old(vndPlayed) && npPlayed == old(npPlayed)
    {
      visited := [];
      if file.None? && Trim(ECMAScript, content) == "" {
        return;
      }
      errorMessage := None;
      step := Processing;
      visited := visited + [step];

      if Throws(interruption, 0) {
        Fail(interruption.value.fault);
        visited := visited + [step];
        return;
      }
      step := VndStep;
      visited := visited + [step];

      if Throws(interruption, 1) {
        Fail(interruption.value.fault);
        visited := visited + [step];
        return;
      }
      step := NpStep;
      visited := visited + [step];

      if Throws(interruption, 2) {
        Fail(interruption.value.fault);
        visited := visited + [step];
        return;
      }
      step := SummaryStep;
      visited := visited + [step];

      if Throws(interruption, 3) {
        Fail(interruption.value.fault);
        visited := visited + [step];
        return;
      }
      step := Complete;
      visited := visited + [step];
      result := Some(AnalysisResult(mocks.vnd, mocks.np, mocks.summary,
                                    Some(FileNameFor(file, content)), Some(now)));
    }

    /** The `catch` of `handleAnalyze`. */
    method Fail(fault: Fault)
      modifies this
      ensures errorMessage == Some(FailureMessage(fault)) && step == Upload
      ensures file == old(file) && content == old(content) && result == old(result)
      ensures activeTab == old(activeTab) && storage == old(storage)
      ensures summaryPlayed == old(summaryPlayed) && vndPlayed == old(vndPlayed) && npPlayed == old(npPlayed)
    {
      errorMessage := Some(FailureMessage(fault));
      step := Upload;
    }

    /** `resetAnalysis`: back to the empty first render, with the stored
        analysis removed and every tab's audio free to play again. */
    method Reset()
      modifies this
      ensures Valid()
      ensures file == None && content == "" && result == None && step == Upload
      ensures errorMessage == None && activeTab == SummaryTab
      ensures storage == old(storage) - {StorageKey}
      ensures !summaryPlayed && !vndPlayed && !npPlayed
    {
      file := None;
      content := "";
      result := None;
      step := Upload;
      errorMessage := None;
      activeTab := SummaryTab;
      storage := storage - {StorageKey};
      summaryPlayed, vndPlayed, npPlayed := false, false, false;
    }

    /** `clearAnalysisHistory`: like `Reset`, but the chosen file, the
        typed content and the error message stay. */
    method ClearHistory()
      modifies this
      ensures Valid()
      ensures result == None && step == Upload && activeTab == SummaryTab
      ensures storage == old(storage) - {StorageKey}
      ensures !summaryPlayed && !vndPlayed && !npPlayed
      ensures file == old(file) && content == old(content) && errorMessage == old(errorMessage)
    {
      result := None;
      step := Upload;
      activeTab := SummaryTab;
      storage := storage - {StorageKey};
      summaryPlayed, vndPlayed, npPlayed := false, false, false;
    }
  }

  /** The delay numbered `wait` rejects. */
  predicate Throws(interruption: Option<Interruption>, wait: nat) {
    interruption.Some? && interruption.value.wait == wait
  }
}
