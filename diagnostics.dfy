/**
 * The diagnostic context's bookkeeping: each emitted diagnostic is counted
 * by level, and once the errors or the warnings reach their configured
 * maximum, further diagnostics of that level are dropped. Notes are never
 * counted and never dropped.
 */
module Diagnostics {
  import opened Common
  import opened SourcePositions

  datatype DiagLevel = Note | Warning | Error | Fatal

  /** The context's options, with the defaults of a default-constructed context. */
  datatype DiagCtxtOptions = DiagCtxtOptions(
    maxErrors: u32,
    maxWarnings: u32,
    useColors: bool,
    abortOnFirstError: bool,
    defaultContextLines: u32)

  const DEFAULT_OPTIONS := DiagCtxtOptions(100, 1000, true, false, 0)

  datatype Label = Label(span: Span, text: string, level: DiagLevel, surroundingLines: u32)

  datatype Diag = Diag(
    level: DiagLevel,
    errorCode: Option<u32>,
    primaryMessage: string,
    primarySpan: Span,
    labels: seq<Label>,
    notes: seq<string>)

  /** The two counters of a context. */
  datatype Counts = Counts(errors: nat, warnings: nat)

  predicate IsErrorLevel(level: DiagLevel) {
    level == Error || level == Fatal
  }

  /** `can_emit`: is a diagnostic of this level still admitted? */
  predicate Admits(options: DiagCtxtOptions, c: Counts, level: DiagLevel) {
    match level
    case Error | Fatal => c.errors < options.maxErrors
    case Warning => c.warnings < options.maxWarnings
    case Note => true
  }

  /** The counters after `emit`: a dropped diagnostic changes nothing, an admitted one counts at its level. */
  function Record(options: DiagCtxtOptions, c: Counts, level: DiagLevel): (r: Counts)
    ensures !Admits(options, c, level) ==> r == c
    ensures Admits(options, c, level) && IsErrorLevel(level) ==> r == Counts(c.errors + 1, c.warnings)
    ensures Admits(options, c, level) && level == Warning ==> r == Counts(c.errors, c.warnings + 1)
    ensures level == Note ==> r == c
  {
    if !Admits(options, c, level) then c
    else match level
      case Error | Fatal => Counts(c.errors + 1, c.warnings)
      case Warning => Counts(c.errors, c.warnings + 1)
      case Note => c
  }

  /** Both counters are within their caps. */
  predicate WithinCaps(options: DiagCtxtOptions, c: Counts) {
    c.errors <= options.maxErrors && c.warnings <= options.maxWarnings
  }

  /** Emitting keeps the counters within their caps. */
  lemma RecordKeepsCaps(options: DiagCtxtOptions, c: Counts, level: DiagLevel)
    requires WithinCaps(options, c)
    ensures WithinCaps(options, Record(options, c, level))
  {
  }

  /** The counters after emitting a whole sequence of diagnostics, in order. */
  function RecordAll(options: DiagCtxtOptions, c: Counts, levels: seq<DiagLevel>): Counts
    decreases |levels|
  {
    if levels == [] then c else RecordAll(options, Record(options, c, levels[0]), levels[1..])
  }

  /** How many of the levels are errors (`Error` or `Fatal`). */
  function ErrorLevels(levels: seq<DiagLevel>): nat {
    if levels == [] then 0 else (if IsErrorLevel(levels[0]) then 1 else 0) + ErrorLevels(levels[1..])
  }

  /** How many of the levels are warnings. */
  function WarningLevels(levels: seq<DiagLevel>): nat {
    if levels == [] then 0 else (if levels[0] == Warning then 1 else 0) + WarningLevels(levels[1..])
  }

  /**
   * From counters within their caps, a sequence of diagnostics raises each
   * counter by the number of diagnostics of its level, up to the cap.
   */
  lemma {:induction false} RecordAllSaturates(options: DiagCtxtOptions, c: Counts, levels: seq<DiagLevel>)
    decreases |levels|
    requires WithinCaps(options, c)
    ensures RecordAll(options, c, levels).errors == Min(c.errors + ErrorLevels(levels), options.maxErrors)
    ensures RecordAll(options, c, levels).warnings == Min(c.warnings + WarningLevels(levels), options.maxWarnings)
  {
    if levels != [] {
      var c' := Record(options, c, levels[0]);
      RecordKeepsCaps(options, c, levels[0]);
      RecordAllSaturates(options, c', levels[1..]);
    }
  }

  class DiagCtxt {
    const options: DiagCtxtOptions
    var errorCount: u32
    var warningCount: u32

    function Counters(): Counts
      reads this
    {
      Counts(errorCount, warningCount)
    }

    /** The counters never pass their caps. */
    predicate Valid()
      reads this
    {
      WithinCaps(options, Counters())
    }

    /** A context with the given options and no diagnostics counted. */
    constructor (options: DiagCtxtOptions)
      ensures Valid()
      ensures this.options == options && errorCount == 0 && warningCount == 0
    {
      this.options := options;
      errorCount := 0;
      warningCount := 0;
    }

    /** `can_emit`. */
    function CanEmit(level: DiagLevel): (b: bool)
      reads this
      ensures b == Admits(options, Counters(), level)
    {
      match level
      case Error | Fatal => errorCount < options.maxErrors
      case Warning => warningCount < options.maxWarnings
      case Note => true
    }

    /**
     * `emit`, counting only: the emitters a context forwards to are not
     * part of this model. An admitted count stays below the cap, so the
     * 32-bit counters never wrap.
     */
    method Emit(diag: Diag)
      modifies this
      ensures Counters() == Record(options, old(Counters()), diag.level)
      ensures old(Valid()) ==> Valid()
    {
      if !CanEmit(diag.level) {
        return;
      }
      match diag.level {
        case Error | Fatal => errorCount := errorCount + 1;
        case Warning => warningCount := warningCount + 1;
        case Note =>
      }
    }
  }

  /** A diagnostic under construction, bound to a context that may be absent. */
  class DiagBuilder {
    var diag: Diag
    const ctxt: DiagCtxt?

    /** `diag_builder`: a diagnostic of the level, message and span, with no code, labels or notes. */
    constructor (ctxt: DiagCtxt?, level: DiagLevel, message: string, span: Span)
      ensures this.ctxt == ctxt && diag == Diag(level, None, message, span, [], [])
    {
      this.ctxt := ctxt;
      diag := Diag(level, None, message, span, [], []);
    }

    method Code(errorCode: u32)
      modifies this
      ensures diag == old(diag).(errorCode := Some(errorCode))
    {
      diag := diag.(errorCode := Some(errorCode));
    }

    method AddLabel(span: Span, text: string, level: DiagLevel)
      modifies this
      ensures diag == old(diag).(labels := old(diag).labels + [Label(span, text, level, 1)])
    {
      diag := diag.(labels := diag.labels + [Label(span, text, level, 1)]);
    }

    method AddNote(note: string)
      modifies this
      ensures diag == old(diag).(notes := old(diag).notes + [note])
    {
      diag := diag.(notes := diag.notes + [note]);
    }

    /** A label at the diagnostic's own level. */
    method SpanLabel(span: Span, text: string)
      modifies this
      ensures diag == old(diag).(labels := old(diag).labels + [Label(span, text, old(diag).level, 1)])
    {
      AddLabel(span, text, diag.level);
    }

    /** `DiagBuilder::emit`: hand the diagnostic to the context, or do nothing without one. */
    method Emit()
      modifies ctxt
      ensures ctxt != null ==> ctxt.Counters() == Record(ctxt.options, old(ctxt.Counters()), diag.level)
      ensures ctxt != null ==> (old(ctxt.Valid()) ==> ctxt.Valid())
    {
      if ctxt != null {
        ctxt.Emit(diag);
      }
    }
  }

  /** The levels emitted by the ErrorLimits test: three errors, then two warnings. */
  const LIMIT_TEST_LEVELS: seq<DiagLevel> := [Error, Error, Error, Warning, Warning]

  /** Under caps of two errors and one warning, that sequence leaves the counters at two and one. */
  lemma ErrorLimitsCounts()
    ensures RecordAll(DiagCtxtOptions(2, 1, true, false, 0), Counts(0, 0), LIMIT_TEST_LEVELS) == Counts(2, 1)
  {
    var options := DiagCtxtOptions(2, 1, true, false, 0);
    RecordAllSaturates(options, Counts(0, 0), LIMIT_TEST_LEVELS);
    assert ErrorLevels(LIMIT_TEST_LEVELS) == 3 by {
      assert LIMIT_TEST_LEVELS[1..] == [Error, Error, Warning, Warning];
      assert LIMIT_TEST_LEVELS[1..][1..] == [Error, Warning, Warning];
      assert LIMIT_TEST_LEVELS[1..][1..][1..] == [Warning, Warning];
      assert LIMIT_TEST_LEVELS[1..][1..][1..][1..] == [Warning];
    }
    assert WarningLevels(LIMIT_TEST_LEVELS) == 2 by {
      assert LIMIT_TEST_LEVELS[1..] == [Error, Error, Warning, Warning];
      assert LIMIT_TEST_LEVELS[1..][1..] == [Error, Warning, Warning];
      assert LIMIT_TEST_LEVELS[1..][1..][1..] == [Warning, Warning];
      assert LIMIT_TEST_LEVELS[1..][1..][1..][1..] == [Warning];
    }
  }

  /** The ErrorLimits test on a context object: the third error and the second warning are dropped. */
  method ErrorLimits() returns (errors: nat, warnings: nat)
    ensures errors == 2 && warnings == 1
  {
    var ctxt := new DiagCtxt(DiagCtxtOptions(2, 1, true, false, 0));
    var span := Span(10, 15);
    var e := Diag(Error, None, "error", span, [], []);
    var w := Diag(Warning, None, "warning", span, [], []);
    ctxt.Emit(e);
    ctxt.Emit(e);
    ctxt.Emit(e);
    errors := ctxt.errorCount;
    ctxt.Emit(w);
    ctxt.Emit(w);
    warnings := ctxt.warningCount;
  }
}
