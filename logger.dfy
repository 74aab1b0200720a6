/**
 * The logger of the supervisor: a priority filter in front of a sink, and the
 * heuristic that turns a child's captured stdout and stderr into leveled
 * entries. The sink is modelled as the sequence of entries it has received;
 * the timestamp prefix and the choice between a log file and a stream are
 * not part of the model.
 */
module Log {
  import opened Wrappers
  import opened PhpText
  import opened SeqFacts

  const LevelDebug: string := "debug"
  const LevelInfo: string := "info"
  const LevelWarning: string := "warning"
  const LevelError: string := "error"
  const LevelQuiet: string := "quiet"

  /** LEVEL_PRIORITIES */
  const Priorities: map<string, nat> :=
    map[LevelDebug := 0, LevelInfo := 1, LevelWarning := 2, LevelError := 3, LevelQuiet := 4]

  /** getValidLevels(): the level names, listed in increasing priority. */
  function ValidLevels(): (levels: seq<string>)
    ensures |levels| == 5
    ensures forall i :: 0 <= i < 5 ==> levels[i] in Priorities && Priorities[levels[i]] == i
    ensures forall l :: l in Priorities <==> l in levels
  {
    [LevelDebug, LevelInfo, LevelWarning, LevelError, LevelQuiet]
  }

  /** The priority of a level name; a name outside the table counts as info. */
  function Priority(level: string): nat {
    if level in Priorities then Priorities[level] else Priorities[LevelInfo]
  }

  /** shouldLog(): whether a logger configured at `configured` emits a message at `level`. */
  predicate ShouldLog(configured: string, level: string) {
    configured != LevelQuiet && Priority(level) >= Priority(configured)
  }

  /** At level quiet nothing is emitted, whatever the message level. */
  lemma {:induction false} QuietLogsNothing(level: string)
    ensures !ShouldLog(LevelQuiet, level)
  {
  }

  /**
   * Between the valid levels, a message passes exactly when its level is not
   * listed before the configured one in getValidLevels(), unless the
   * configured level is quiet.
   */
  lemma {:induction false} LevelFilterFollowsListOrder(configured: nat, message: nat)
    requires configured < 5 && message < 4
    ensures ShouldLog(ValidLevels()[configured], ValidLevels()[message])
        <==> configured < 4 && configured <= message
  {
  }

  /** An unknown level name behaves as info, both as a message level and as a configured level. */
  lemma {:induction false} UnknownLevelCountsAsInfo(unknown: string, other: string)
    requires unknown !in Priorities
    ensures ShouldLog(other, unknown) == ShouldLog(other, LevelInfo)
    ensures ShouldLog(unknown, other) == ShouldLog(LevelInfo, other)
  {
  }

  // ---------------------------------------------------------------------------
  // The sink
  // ---------------------------------------------------------------------------

  /** What reaches the sink: a level name and a message. */
  datatype Entry = Entry(level: string, message: string)

  predicate HasLevel(es: seq<Entry>, level: string) {
    exists i :: 0 <= i < |es| && es[i].level == level
  }

  /** The entries of `es` that a logger configured at `configured` writes, in order. */
  function Visible(configured: string, es: seq<Entry>): (r: seq<Entry>)
    ensures |r| <= |es|
    decreases |es|
  {
    if es == [] then []
    else (if ShouldLog(configured, es[0].level) then [es[0]] else []) + Visible(configured, es[1..])
  }

  /** The sink receives exactly the entries whose level passes the filter. */
  lemma {:induction false} VisibleIsFilter(configured: string, es: seq<Entry>)
    ensures forall e :: e in Visible(configured, es) <==> e in es && ShouldLog(configured, e.level)
    decreases |es|
  {
    if es != [] {
      VisibleIsFilter(configured, es[1..]);
      assert es == [es[0]] + es[1..];
    }
  }

  /** Filtering a concatenation is concatenating the filtered parts. */
  lemma {:induction false} VisibleAppend(configured: string, a: seq<Entry>, b: seq<Entry>)
    ensures Visible(configured, a + b) == Visible(configured, a) + Visible(configured, b)
    decreases |a|
  {
    if a != [] {
      assert (a + b)[0] == a[0];
      assert (a + b)[1..] == a[1..] + b;
      VisibleAppend(configured, a[1..], b);
    } else {
      assert a + b == b;
    }
  }

  // ---------------------------------------------------------------------------
  // Line patterns
  // ---------------------------------------------------------------------------

  /** `^PHP (Fatal error|Parse error):` */
  const FatalMarkers: seq<string> := ["PHP Fatal error:", "PHP Parse error:"]
  /** `^PHP (Warning|Notice|Deprecated):` */
  const WarningMarkers: seq<string> := ["PHP Warning:", "PHP Notice:", "PHP Deprecated:"]
  /** `^(Fatal error|Parse error|Warning|Notice|Deprecated):` */
  const StdoutMarkers: seq<string> := ["Fatal error:", "Parse error:", "Warning:", "Notice:", "Deprecated:"]

  /** A regular expression `^(p1|p2|...)`: the line starts with one of the alternatives, tried in order. */
  predicate StartsWithAny(s: string, prefixes: seq<string>)
    decreases |prefixes|
  {
    |prefixes| > 0 && (StartsWith(s, prefixes[0]) || StartsWithAny(s, prefixes[1..]))
  }

  lemma {:induction false} StartsWithAnyIff(s: string, prefixes: seq<string>)
    ensures StartsWithAny(s, prefixes) <==> exists p :: p in prefixes && StartsWith(s, p)
    decreases |prefixes|
  {
    if |prefixes| > 0 {
      StartsWithAnyIff(s, prefixes[1..]);
      assert forall p :: p in prefixes <==> p == prefixes[0] || p in prefixes[1..];
    }
  }

  function SkipRegexSpace(s: string): (r: string)
    ensures |r| <= |s|
    decreases |s|
  {
    if |s| > 0 && IsRegexSpace(s[0]) then SkipRegexSpace(s[1..]) else s
  }

  /** isStackTrace(): `^\s*(Stack trace:|#\d+|thrown in)` */
  predicate IsStackTrace(line: string) {
    var t := SkipRegexSpace(line);
    StartsWith(t, "Stack trace:") || (|t| >= 2 && t[0] == '#' && IsDigit(t[1])) || StartsWith(t, "thrown in")
  }

  // ---------------------------------------------------------------------------
  // The line classifier
  // ---------------------------------------------------------------------------

  /** A line as one of the two loops sees it: the branch it takes and its trimmed text. */
  datatype Line<K> = Line(kind: K, text: string)

  /** The text of a line is empty exactly for the lines of kind `blank`. */
  predicate Clean<K(==)>(ls: seq<Line<K>>, blank: K) {
    forall i :: 0 <= i < |ls| ==> (ls[i].kind == blank <==> ls[i].text == "")
  }

  function Texts<K>(ls: seq<Line<K>>): (r: seq<string>)
    ensures |r| == |ls| && forall i :: 0 <= i < |ls| ==> r[i] == ls[i].text
  {
    seq(|ls|, i requires 0 <= i < |ls| => ls[i].text)
  }

  // ---------------------------------------------------------------------------
  // stderr: a state machine over lines
  // ---------------------------------------------------------------------------

  /** Which branch of the stderr loop a line takes, tested in the loop's order. */
  datatype LineKind = Blank | ErrorMarker | WarningMarker | TraceLine | OtherLine

  function StdErrKind(line: string): LineKind {
    if Trim(line) == "" then Blank else NonBlankErrKind(line)
  }

  /** The rest of the chain, for a line that is not blank. */
  function NonBlankErrKind(line: string): (k: LineKind)
    ensures k != Blank
  {
    if StartsWithAny(line, FatalMarkers) then ErrorMarker
    else if StartsWithAny(line, WarningMarkers) then WarningMarker
    else if IsStackTrace(line) then TraceLine
    else OtherLine
  }

  function ClassifyErr(raw: string): (l: Line<LineKind>)
    ensures l.kind == Blank <==> l.text == ""
  {
    Line(StdErrKind(raw), Trim(raw))
  }

  /** The stderr lines, classified one by one. */
  function ErrLines(raws: seq<string>): (ls: seq<Line<LineKind>>)
    ensures |ls| == |raws|
    ensures Clean(ls, Blank)
    decreases |raws|
  {
    if raws == [] then [] else ErrLines(raws[..|raws| - 1]) + [ClassifyErr(raws[|raws| - 1])]
  }

  lemma {:induction false} ErrLinesAt(raws: seq<string>, i: int)
    requires 0 <= i < |raws|
    ensures ErrLines(raws)[i] == ClassifyErr(raws[i])
    decreases |raws|
  {
    if i < |raws| - 1 {
      ErrLinesAt(raws[..|raws| - 1], i);
    }
  }

  predicate IsMarker(k: LineKind) {
    k == ErrorMarker || k == WarningMarker
  }

  /** `$currentBlock`: null, 'error' or 'warning'. */
  datatype Block = NoBlock | ErrorBlock | WarningBlock

  /** The loop variables of logStdErr(): `$errorLines`, `$warningLines`, `$currentBlock`. */
  datatype StdErrState = StdErrState(errorLines: seq<string>, warningLines: seq<string>, block: Block)

  const StdErrStart := StdErrState([], [], NoBlock)

  /** One iteration of the stderr loop. */
  function StdErrStep(st: StdErrState, l: Line<LineKind>): StdErrState {
    match l.kind
    case ErrorMarker => st.(block := ErrorBlock, errorLines := st.errorLines + [l.text])
    case WarningMarker => st.(block := WarningBlock, warningLines := st.warningLines + [l.text])
    case TraceLine => if st.block == ErrorBlock then st.(errorLines := st.errorLines + [l.text]) else st
    case _ => st
  }

  /** The loop state after the given lines, taken in order. */
  function StdErrFold(ls: seq<Line<LineKind>>): StdErrState
    decreases |ls|
  {
    if ls == [] then StdErrStart
    else StdErrStep(StdErrFold(ls[..|ls| - 1]), ls[|ls| - 1])
  }

  lemma {:induction false} FoldSnoc(ls: seq<Line<LineKind>>, l: Line<LineKind>)
    ensures StdErrFold(ls + [l]) == StdErrStep(StdErrFold(ls), l)
  {
    assert (ls + [l])[..|ls|] == ls;
  }

  /** Some classified line has kind `k`. */
  predicate HasKind<K(==)>(ls: seq<Line<K>>, k: K) {
    exists i :: 0 <= i < |ls| && ls[i].kind == k
  }

  /** Some raw stderr line classifies as `k`. */
  predicate HasErrKind(raws: seq<string>, k: LineKind) {
    exists j :: 0 <= j < |raws| && StdErrKind(raws[j]) == k
  }

  /** No marker line after position `j`. */
  predicate NoMarkerAfter(ls: seq<Line<LineKind>>, j: int) {
    forall m :: 0 <= m < |ls| && j < m ==> !IsMarker(ls[m].kind)
  }

  /**
   * The open block is decided by the last marker line alone: error after a
   * fatal or parse error marker, warning after a warning, notice or
   * deprecation marker, none before the first marker.
   */
  lemma {:induction false} BlockIsLastMarker(ls: seq<Line<LineKind>>)
    ensures StdErrFold(ls).block == ErrorBlock
        <==> exists j :: 0 <= j < |ls| && ls[j].kind == ErrorMarker && NoMarkerAfter(ls, j)
    ensures StdErrFold(ls).block == WarningBlock
        <==> exists j :: 0 <= j < |ls| && ls[j].kind == WarningMarker && NoMarkerAfter(ls, j)
    ensures StdErrFold(ls).block == NoBlock <==> forall j :: 0 <= j < |ls| ==> !IsMarker(ls[j].kind)
    decreases |ls|
  {
    if ls != [] {
      var init, last := ls[..|ls| - 1], ls[|ls| - 1];
      assert ls == init + [last];
      FoldSnoc(init, last);
      BlockIsLastMarker(init);
      var n := |ls| - 1;
      if IsMarker(last.kind) {
        assert NoMarkerAfter(ls, n);
        forall j | 0 <= j < n ensures !NoMarkerAfter(ls, j) {
          assert IsMarker(ls[n].kind);
        }
      } else {
        forall j | 0 <= j < n ensures NoMarkerAfter(ls, j) == NoMarkerAfter(init, j) {
          assert forall m :: 0 <= m < n ==> ls[m] == init[m];
        }
        forall j | 0 <= j < n ensures ls[j] == init[j] {
        }
      }
    }
  }

  /**
   * Error lines are collected only once an error marker has been seen, and
   * warning lines only once a warning marker has been seen.
   */
  lemma {:induction false} StdErrBucketsNeedMarkers(ls: seq<Line<LineKind>>)
    ensures StdErrFold(ls).block == ErrorBlock ==> HasKind(ls, ErrorMarker)
    ensures StdErrFold(ls).errorLines != [] <==> HasKind(ls, ErrorMarker)
    ensures StdErrFold(ls).warningLines != [] <==> HasKind(ls, WarningMarker)
    decreases |ls|
  {
    if ls != [] {
      var init, last := ls[..|ls| - 1], ls[|ls| - 1];
      assert ls == init + [last];
      FoldSnoc(init, last);
      StdErrBucketsNeedMarkers(init);
      HasKindSnoc(init, last, ErrorMarker);
      HasKindSnoc(init, last, WarningMarker);
    }
  }

  lemma HasKindSnoc<K>(ls: seq<Line<K>>, l: Line<K>, k: K)
    ensures HasKind(ls + [l], k) <==> HasKind(ls, k) || l.kind == k
  {
    if HasKind(ls + [l], k) {
      var i :| 0 <= i < |ls + [l]| && (ls + [l])[i].kind == k;
      if i < |ls| {
        assert (ls + [l])[i] == ls[i];
      }
    }
    if HasKind(ls, k) {
      var i :| 0 <= i < |ls| && ls[i].kind == k;
      assert (ls + [l])[i] == ls[i];
    }
    if l.kind == k {
      assert (ls + [l])[|ls|] == l;
    }
  }

  /** Every collected line is the non-blank text of an input line of the right kind. */
  lemma {:induction false} StdErrKeptLines(ls: seq<Line<LineKind>>)
    requires Clean(ls, Blank)
    ensures |StdErrFold(ls).errorLines| + |StdErrFold(ls).warningLines| <= |ls|
    ensures forall x :: x in StdErrFold(ls).errorLines ==>
              x != "" &&
              exists i :: 0 <= i < |ls| && x == ls[i].text && (ls[i].kind == ErrorMarker || ls[i].kind == TraceLine)
    ensures forall x :: x in StdErrFold(ls).warningLines ==>
              x != "" &&
              exists i :: 0 <= i < |ls| && x == ls[i].text && ls[i].kind == WarningMarker
    decreases |ls|
  {
    if ls != [] {
      var init, last := ls[..|ls| - 1], ls[|ls| - 1];
      assert ls == init + [last];
      FoldSnoc(init, last);
      assert Clean(init, Blank) by {
        forall i | 0 <= i < |init| ensures init[i] == ls[i] {
        }
      }
      StdErrKeptLines(init);
      forall i | 0 <= i < |init| ensures ls[i] == init[i] {
      }
      assert ls[|ls| - 1] == last;
    }
  }

  /** The texts of the lines of kind `k`, in input order. */
  function KindTexts<K(==)>(ls: seq<Line<K>>, k: K): (r: seq<string>)
    ensures |r| <= |ls|
    decreases |ls|
  {
    if ls == [] then []
    else KindTexts(ls[..|ls| - 1], k) + (if ls[|ls| - 1].kind == k then [ls[|ls| - 1].text] else [])
  }

  /** The last marker line of `ls` is a fatal or parse error marker. */
  predicate LastMarkerIsError(ls: seq<Line<LineKind>>) {
    exists j :: 0 <= j < |ls| && ls[j].kind == ErrorMarker && NoMarkerAfter(ls, j)
  }

  /** Line `i` belongs in the error bucket: an error marker, or a stack-trace line after an error marker. */
  predicate KeptAsError(ls: seq<Line<LineKind>>, i: int)
    requires 0 <= i < |ls|
  {
    ls[i].kind == ErrorMarker || (ls[i].kind == TraceLine && LastMarkerIsError(ls[..i]))
  }

  /** The texts of the lines that belong in the error bucket, in input order. */
  function ErrorTexts(ls: seq<Line<LineKind>>): (r: seq<string>)
    ensures |r| <= |ls|
    decreases |ls|
  {
    if ls == [] then []
    else ErrorTexts(ls[..|ls| - 1]) + (if KeptAsError(ls, |ls| - 1) then [ls[|ls| - 1].text] else [])
  }

  /** The warning bucket holds the text of every warning marker line, each once, in input order. */
  lemma {:induction false} StdErrWarningLinesInOrder(ls: seq<Line<LineKind>>)
    ensures StdErrFold(ls).warningLines == KindTexts(ls, WarningMarker)
    decreases |ls|
  {
    if ls != [] {
      var init, last := ls[..|ls| - 1], ls[|ls| - 1];
      assert ls == init + [last];
      FoldSnoc(init, last);
      StdErrWarningLinesInOrder(init);
    }
  }

  /**
   * The error bucket holds the text of every error marker line and of every
   * stack-trace line whose last preceding marker is an error marker, each
   * once, in input order.
   */
  lemma {:induction false} StdErrErrorLinesInOrder(ls: seq<Line<LineKind>>)
    ensures StdErrFold(ls).errorLines == ErrorTexts(ls)
    decreases |ls|
  {
    if ls != [] {
      var init, last := ls[..|ls| - 1], ls[|ls| - 1];
      assert ls == init + [last];
      FoldSnoc(init, last);
      StdErrErrorLinesInOrder(init);
      BlockIsLastMarker(init);
      assert ls[..|ls| - 1] == init;
      assert StdErrFold(init).block == ErrorBlock <==> LastMarkerIsError(init);
    }
  }

  /**
   * A line the loop drops (blank, unmatched, or a stack-trace line while no
   * error block is open) could be deleted from the input without changing
   * anything the loop collects.
   */
  lemma {:induction false} DroppedLineIsIrrelevant(pre: seq<Line<LineKind>>, l: Line<LineKind>, post: seq<Line<LineKind>>)
    requires l.kind == Blank || l.kind == OtherLine || (l.kind == TraceLine && StdErrFold(pre).block != ErrorBlock)
    ensures StdErrFold(pre + [l] + post) == StdErrFold(pre + post)
  {
    FoldSnoc(pre, l);
    FoldDependsOnStateOnly(pre + [l], pre, post);
  }

  /** The loop only remembers its state: equal states stay equal on equal input. */
  lemma {:induction false} FoldDependsOnStateOnly(a: seq<Line<LineKind>>, b: seq<Line<LineKind>>, post: seq<Line<LineKind>>)
    requires StdErrFold(a) == StdErrFold(b)
    ensures StdErrFold(a + post) == StdErrFold(b + post)
    decreases |post|
  {
    if post == [] {
      assert a + post == a && b + post == b;
    } else {
      var init, x := post[..|post| - 1], post[|post| - 1];
      FoldDependsOnStateOnly(a, b, init);
      SnocSplit(a, post);
      SnocSplit(b, post);
      FoldSnoc(a + init, x);
      FoldSnoc(b + init, x);
    }
  }

  /**
   * The entries logStdErr() writes once its loop is done: at most one error
   * entry, then at most one warning entry, each present exactly when its
   * bucket is non-empty.
   */
  function BlockEntries(st: StdErrState): (r: seq<Entry>)
    ensures |r| <= 2
  {
    Bucket(LevelError, st.errorLines) + Bucket(LevelWarning, st.warningLines)
  }

  /** One bucket's entry: its lines joined by " | ", none for an empty bucket. */
  function Bucket(level: string, lines: seq<string>): (r: seq<Entry>)
    ensures |r| <= 1
  {
    if lines != [] then [Entry(level, "Output: " + Join(lines, " | "))] else []
  }

  /** The entries logStdErr() writes for the lines of the captured stderr text. */
  function StdErrEntries(lines: seq<string>): seq<Entry> {
    BlockEntries(StdErrFold(ErrLines(lines)))
  }

  /**
   * stderr yields an error entry exactly when one of its lines is a fatal or
   * parse error marker, and a warning entry exactly when one is a warning,
   * notice or deprecation marker.
   */
  lemma {:induction false} StdErrEntryIffMarker(raws: seq<string>)
    ensures HasLevel(StdErrEntries(raws), LevelError) <==> HasErrKind(raws, ErrorMarker)
    ensures HasLevel(StdErrEntries(raws), LevelWarning) <==> HasErrKind(raws, WarningMarker)
  {
    var st := StdErrFold(ErrLines(raws));
    StdErrBucketsNeedMarkers(ErrLines(raws));
    HasKindOfRaw(raws, ErrorMarker);
    HasKindOfRaw(raws, WarningMarker);
    BlockEntriesLevels(st);
  }

  /**
   * The entries of one run: at most an error entry followed by at most a
   * warning entry, the error one present iff error lines were collected and
   * the warning one iff warning lines were.
   */
  lemma {:induction false} BlockEntriesLevels(st: StdErrState)
    ensures forall i :: 0 <= i < |BlockEntries(st)| ==> BlockEntries(st)[i].level in {LevelError, LevelWarning}
    ensures |BlockEntries(st)| == 2 ==> BlockEntries(st)[0].level == LevelError && BlockEntries(st)[1].level == LevelWarning
    ensures HasLevel(BlockEntries(st), LevelError) <==> st.errorLines != []
    ensures HasLevel(BlockEntries(st), LevelWarning) <==> st.warningLines != []
  {
    var r := BlockEntries(st);
    assert LevelError != LevelWarning;
    if st.errorLines != [] {
      assert r[0].level == LevelError;
    }
    if st.warningLines != [] {
      assert r[|r| - 1].level == LevelWarning;
    }
  }

  lemma {:induction false} HasKindOfRaw(raws: seq<string>, k: LineKind)
    ensures HasKind(ErrLines(raws), k) <==> HasErrKind(raws, k)
  {
    if HasKind(ErrLines(raws), k) {
      var j :| 0 <= j < |raws| && ErrLines(raws)[j].kind == k;
      ErrLinesAt(raws, j);
    }
    if HasErrKind(raws, k) {
      var j :| 0 <= j < |raws| && StdErrKind(raws[j]) == k;
      ErrLinesAt(raws, j);
    }
  }

  /** A fatal line and the stack-trace lines after it all land in the error bucket. */
  lemma {:induction false} FatalThenFrames(hd: seq<Line<LineKind>>)
    requires |hd| >= 1 && hd[0].kind == ErrorMarker
    requires forall i :: 1 <= i < |hd| ==> hd[i].kind == TraceLine
    ensures StdErrFold(hd) == StdErrState(Texts(hd), [], ErrorBlock)
    decreases |hd|
  {
    if |hd| > 1 {
      var init, last := hd[..|hd| - 1], hd[|hd| - 1];
      FatalThenFrames(init);
      assert hd == init + [last];
      FoldSnoc(init, last);
      assert Texts(hd) == Texts(init) + [last.text];
    }
  }

  /**
   * A fatal error line followed by stack-trace lines and a final newline
   * (an empty last piece) gives exactly one error entry holding every
   * non-blank line, trimmed and joined by " | ".
   */
  lemma {:induction false} FatalErrorWithStackTrace(fatal: string, frames: seq<string>)
    requires StdErrKind(fatal) == ErrorMarker
    requires forall i :: 0 <= i < |frames| ==> StdErrKind(frames[i]) == TraceLine
    ensures StdErrEntries([fatal] + frames + [""])
         == [Entry(LevelError, "Output: " + Join(Texts(ErrLines([fatal] + frames)), " | "))]
  {
    var head := ErrLines([fatal] + frames);
    FatalFrameKinds(fatal, frames);
    FatalThenFrames(head);
    assert ([fatal] + frames + [""])[..|frames| + 1] == [fatal] + frames;
    FoldSnoc(head, ClassifyErr(""));
  }

  lemma {:induction false} FatalFrameKinds(fatal: string, frames: seq<string>)
    requires StdErrKind(fatal) == ErrorMarker
    requires forall i :: 0 <= i < |frames| ==> StdErrKind(frames[i]) == TraceLine
    ensures ErrLines([fatal] + frames)[0].kind == ErrorMarker
    ensures forall i :: 1 <= i < |frames| + 1 ==> ErrLines([fatal] + frames)[i].kind == TraceLine
  {
    var body := [fatal] + frames;
    ErrLinesKindAt(body, 0);
    forall i | 1 <= i < |frames| + 1 ensures ErrLines(body)[i].kind == TraceLine {
      assert body[i] == frames[i - 1];
      ErrLinesKindAt(body, i);
    }
  }

  lemma ErrLinesKindAt(raws: seq<string>, i: int)
    requires 0 <= i < |raws|
    ensures ErrLines(raws)[i].kind == StdErrKind(raws[i])
  {
    ErrLinesAt(raws, i);
  }

  // ---------------------------------------------------------------------------
  // stdout: a filter
  // ---------------------------------------------------------------------------

  /** Which branch of the stdout loop a line takes: skipped as blank, as a diagnostic, as a stack trace, or kept. */
  datatype OutKind = BlankOut | MarkerOut | TraceOut | TextOut

  function StdOutKind(line: string): OutKind {
    if Trim(line) == "" then BlankOut
    else if StartsWithAny(line, StdoutMarkers) then MarkerOut
    else if IsStackTrace(line) then TraceOut
    else TextOut
  }

  function ClassifyOut(raw: string): (l: Line<OutKind>)
    ensures l.kind == BlankOut <==> l.text == ""
  {
    Line(StdOutKind(raw), Trim(raw))
  }

  /** The stdout lines, classified one by one. */
  function OutLines(raws: seq<string>): (ls: seq<Line<OutKind>>)
    ensures |ls| == |raws|
    ensures Clean(ls, BlankOut)
    decreases |raws|
  {
    if raws == [] then [] else OutLines(raws[..|raws| - 1]) + [ClassifyOut(raws[|raws| - 1])]
  }

  lemma {:induction false} OutLinesAt(raws: seq<string>, i: int)
    requires 0 <= i < |raws|
    ensures OutLines(raws)[i] == ClassifyOut(raws[i])
    decreases |raws|
  {
    if i < |raws| - 1 {
      OutLinesAt(raws[..|raws| - 1], i);
    }
  }

  /** `$debugLines` after the given lines: the text of the kept ones, in order. */
  function DebugLines(ls: seq<Line<OutKind>>): (r: seq<string>)
    ensures |r| <= |ls|
    decreases |ls|
  {
    if ls == [] then []
    else DebugLines(ls[..|ls| - 1]) + (if ls[|ls| - 1].kind == TextOut then [ls[|ls| - 1].text] else [])
  }

  /** The stdout filter works line by line: it maps a concatenation to a concatenation. */
  lemma {:induction false} DebugLinesAppend(a: seq<Line<OutKind>>, b: seq<Line<OutKind>>)
    ensures DebugLines(a + b) == DebugLines(a) + DebugLines(b)
    decreases |b|
  {
    if b == [] {
      assert a + b == a;
    } else {
      var init, x := b[..|b| - 1], b[|b| - 1];
      DebugLinesAppend(a, init);
      SnocSplit(a, b);
      DebugLinesSnoc(a + init, x);
      DebugLinesSnoc(init, x);
      assert b == init + [x];
      AppendAssoc(DebugLines(a), DebugLines(init), if x.kind == TextOut then [x.text] else []);
    }
  }

  lemma {:induction false} DebugLinesSnoc(ls: seq<Line<OutKind>>, l: Line<OutKind>)
    ensures DebugLines(ls + [l]) == DebugLines(ls) + (if l.kind == TextOut then [l.text] else [])
  {
    assert (ls + [l])[..|ls|] == ls;
  }

  /** One more stdout line adds its trimmed text exactly when it is kept. */
  lemma {:induction false} DebugLinesStep(lines: seq<string>, i: int)
    requires 0 <= i < |lines|
    ensures DebugLines(OutLines(lines)[..i + 1])
         == DebugLines(OutLines(lines)[..i]) + (var l := ClassifyOut(lines[i]); if l.kind == TextOut then [l.text] else [])
  {
    var ls := OutLines(lines);
    assert ls[..i + 1] == ls[..i] + [ls[i]];
    OutLinesAt(lines, i);
    DebugLinesAppend(ls[..i], [ls[i]]);
    DebugLinesOne(ls[i]);
  }

  lemma {:induction false} DebugLinesOne(l: Line<OutKind>)
    ensures DebugLines([l]) == if l.kind == TextOut then [l.text] else []
  {
    assert [l][..0] == [];
  }

  /**
   * The kept lines are the non-blank texts of kept input lines, and there is
   * one exactly when some input line is kept.
   */
  lemma {:induction false} DebugLinesKept(ls: seq<Line<OutKind>>)
    requires Clean(ls, BlankOut)
    ensures forall x :: x in DebugLines(ls) ==>
              x != "" && exists i :: 0 <= i < |ls| && ls[i].kind == TextOut && x == ls[i].text
    ensures DebugLines(ls) != [] <==> HasKind(ls, TextOut)
    decreases |ls|
  {
    if ls != [] {
      var init, last := ls[..|ls| - 1], ls[|ls| - 1];
      forall i | 0 <= i < |init| ensures ls[i] == init[i] {
      }
      DebugLinesKept(init);
      if HasKind(ls, TextOut) {
        var i :| 0 <= i < |ls| && ls[i].kind == TextOut;
        if i < |init| {
          assert init[i].kind == TextOut;
        }
      }
    }
  }

  /** Some raw stdout line classifies as `k`. */
  predicate HasOutKind(raws: seq<string>, k: OutKind) {
    exists i :: 0 <= i < |raws| && StdOutKind(raws[i]) == k
  }

  /** What extractDebugOutput() returns for the lines of the captured stdout text. */
  function DebugText(lines: seq<string>): string {
    Join(DebugLines(OutLines(lines)), " ")
  }

  /**
   * The debug text is non-empty exactly when at least one line survives the
   * filter.
   */
  lemma {:induction false} DebugTextIffSurvivor(raws: seq<string>)
    ensures DebugText(raws) != "" <==> HasOutKind(raws, TextOut)
  {
    var ls := OutLines(raws);
    DebugLinesKept(ls);
    forall i | 0 <= i < |DebugLines(ls)| ensures DebugLines(ls)[i] != "" {
      assert DebugLines(ls)[i] in DebugLines(ls);
    }
    JoinEmptyIff(DebugLines(ls), " ");
    KeptOfRaw(raws);
    assert DebugText(raws) == Join(DebugLines(ls), " ");
    assert DebugText(raws) != "" <==> DebugLines(ls) != [];
    assert DebugLines(ls) != [] <==> HasKind(ls, TextOut);
  }

  lemma {:induction false} KeptOfRaw(raws: seq<string>)
    ensures HasKind(OutLines(raws), TextOut) <==> HasOutKind(raws, TextOut)
  {
    if HasKind(OutLines(raws), TextOut) {
      var i :| 0 <= i < |OutLines(raws)| && OutLines(raws)[i].kind == TextOut;
      OutLinesAt(raws, i);
    }
    if HasOutKind(raws, TextOut) {
      var i :| 0 <= i < |raws| && StdOutKind(raws[i]) == TextOut;
      OutLinesAt(raws, i);
    }
  }

  /**
   * Two plain lines around a deprecation message: the two plain lines
   * trimmed and joined by a space, the marker line left out.
   */
  lemma {:induction false} PlainLinesAroundDeprecation(a: string, marker: string, b: string)
    requires StdOutKind(a) == TextOut && StdOutKind(b) == TextOut
    requires StartsWith(marker, "Deprecated:")
    ensures DebugText([a, marker, b]) == Trim(a) + " " + Trim(b)
  {
    DeprecationIsMarker(marker);
    OutLinesOfThree(a, marker, b);
    var la, lm, lb := ClassifyOut(a), ClassifyOut(marker), ClassifyOut(b);
    DebugLinesSnoc([la] + [lm], lb);
    DebugLinesSnoc([la], lm);
    DebugLinesOne(la);
    assert [la] + [lm] + [lb] == [la, lm, lb];
    assert Join([Trim(a), Trim(b)], " ") == Trim(a) + " " + Trim(b);
  }

  lemma {:induction false} DeprecationIsMarker(marker: string)
    requires StartsWith(marker, "Deprecated:")
    ensures StdOutKind(marker) == MarkerOut
  {
    BlankIffAllTrimChars(marker);
    assert marker[0] == 'D' && !IsTrimChar(marker[0]);
    StartsWithAnyIff(marker, StdoutMarkers);
    assert StdoutMarkers[4] == "Deprecated:";
  }

  lemma {:induction false} OutLinesOfThree(a: string, m: string, b: string)
    ensures OutLines([a, m, b]) == [ClassifyOut(a), ClassifyOut(m), ClassifyOut(b)]
  {
    OutLinesAt([a, m, b], 0);
    OutLinesAt([a, m, b], 1);
    OutLinesAt([a, m, b], 2);
  }

  /** logOutput(): the entries the captured output of one run produces, stderr first. */
  function OutputEntries(stdout: string, stderr: string): seq<Entry> {
    StdErrPart(stderr) + StdOutPart(stdout)
  }

  /** What logOutput() writes for stderr: nothing for an empty text. */
  function StdErrPart(stderr: string): seq<Entry> {
    if stderr != "" then StdErrEntries(Split(stderr, '\n')) else []
  }

  /** What logOutput() writes for stdout: one debug entry, when any text survives. */
  function StdOutPart(stdout: string): seq<Entry> {
    if stdout != "" && DebugText(Split(stdout, '\n')) != "" then [Entry(LevelDebug, "Output: " + DebugText(Split(stdout, '\n')))] else []
  }

  lemma {:induction false} HasLevelAppend(a: seq<Entry>, b: seq<Entry>, level: string)
    ensures HasLevel(a + b, level) <==> HasLevel(a, level) || HasLevel(b, level)
  {
    if HasLevel(a + b, level) {
      var i :| 0 <= i < |a + b| && (a + b)[i].level == level;
      if i >= |a| {
        assert b[i - |a|].level == level;
      }
    }
    if HasLevel(a, level) {
      var i :| 0 <= i < |a| && a[i].level == level;
      assert (a + b)[i].level == level;
    }
    if HasLevel(b, level) {
      var i :| 0 <= i < |b| && b[i].level == level;
      assert (a + b)[|a| + i].level == level;
    }
  }

  /** stderr contributes only error and warning entries, at most one of each. */
  lemma {:induction false} StdErrPartLevels(stderr: string)
    ensures |StdErrPart(stderr)| <= 2
    ensures !HasLevel(StdErrPart(stderr), LevelDebug)
    ensures stderr == "" ==> StdErrPart(stderr) == []
  {
    if stderr != "" {
      var st := StdErrFold(ErrLines(Split(stderr, '\n')));
      BlockEntriesLevels(st);
      assert StdErrPart(stderr) == BlockEntries(st);
      assert LevelDebug !in {LevelError, LevelWarning};
    }
  }

  /**
   * stdout contributes a debug entry, and nothing else, exactly when it is
   * non-empty and one of its lines survives the filter.
   */
  lemma {:induction false} StdOutPartIffSurvivor(stdout: string)
    ensures HasLevel(StdOutPart(stdout), LevelDebug)
        <==> stdout != "" && HasOutKind(Split(stdout, '\n'), TextOut)
    ensures !HasLevel(StdOutPart(stdout), LevelError) && !HasLevel(StdOutPart(stdout), LevelWarning)
    ensures |StdOutPart(stdout)| <= 1
  {
    var lines := Split(stdout, '\n');
    DebugTextIffSurvivor(lines);
    assert LevelDebug != LevelError && LevelDebug != LevelWarning;
    var part := StdOutPart(stdout);
    assert part != [] <==> stdout != "" && DebugText(lines) != "";
    if part != [] {
      assert part[0].level == LevelDebug;
      assert HasLevel(part, LevelDebug);
    } else {
      assert !HasLevel(part, LevelDebug);
      assert stdout != "" ==> !HasOutKind(lines, TextOut);
    }
  }

  /**
   * stdout's lines decide whether a debug entry appears, stderr's whether
   * error and warning entries do; the run yields at most three entries.
   */
  lemma {:induction false} OutputEntriesByStream(stdout: string, stderr: string)
    ensures HasLevel(OutputEntries(stdout, stderr), LevelDebug)
        <==> stdout != "" && HasOutKind(Split(stdout, '\n'), TextOut)
    ensures stderr == "" ==> !HasLevel(OutputEntries(stdout, stderr), LevelError)
    ensures stderr == "" ==> !HasLevel(OutputEntries(stdout, stderr), LevelWarning)
    ensures |OutputEntries(stdout, stderr)| <= 3
  {
    StdErrPartLevels(stderr);
    StdOutPartIffSurvivor(stdout);
    HasLevelAppend(StdErrPart(stderr), StdOutPart(stdout), LevelDebug);
    HasLevelAppend(StdErrPart(stderr), StdOutPart(stdout), LevelError);
    HasLevelAppend(StdErrPart(stderr), StdOutPart(stdout), LevelWarning);
  }

  /**
   * The foreach loop of logStdErr(): the lines collected for the error and
   * the warning entry.
   */
  method CollectStdErr(lines: seq<string>) returns (errorLines: seq<string>, warningLines: seq<string>)
    ensures errorLines == StdErrFold(ErrLines(lines)).errorLines
    ensures warningLines == StdErrFold(ErrLines(lines)).warningLines
    ensures StdErrEntries(lines) == Bucket(LevelError, errorLines) + Bucket(LevelWarning, warningLines)
  {
    ghost var ls := ErrLines(lines);
    errorLines, warningLines := [], [];
    var currentBlock := NoBlock;
    for i := 0 to |lines|
      invariant StdErrState(errorLines, warningLines, currentBlock) == StdErrFold(ls[..i])
    {
      var line := lines[i];
      assert ls[..i + 1] == ls[..i] + [ls[i]];
      ErrLinesAt(lines, i);
      FoldSnoc(ls[..i], ls[i]);
      if Trim(line) == "" {
        continue;
      }
      if StartsWithAny(line, FatalMarkers) {
        currentBlock := ErrorBlock;
        errorLines := errorLines + [Trim(line)];
      } else if StartsWithAny(line, WarningMarkers) {
        currentBlock := WarningBlock;
        warningLines := warningLines + [Trim(line)];
      } else if IsStackTrace(line) && currentBlock == ErrorBlock {
        errorLines := errorLines + [Trim(line)];
      }
    }
    assert ls[..|lines|] == ls;
  }

  // ---------------------------------------------------------------------------
  // The logger object
  // ---------------------------------------------------------------------------

  /** Appending submitted entries appends their filtered part to the sink. */
  lemma SinkGrows(level: string, t0: seq<Entry>, s0: seq<Entry>, es: seq<Entry>, t1: seq<Entry>)
    requires t0 == Visible(level, s0) && t1 == Visible(level, s0 + es)
    ensures t1 == t0 + Visible(level, es)
  {
    VisibleAppend(level, s0, es);
  }

  class Logger {
    const level: string
    const logFile: Option<string>
    /** Everything written to the sink so far, oldest first. */
    var trace: seq<Entry>
    /** Every entry handed to log() so far, written or not, oldest first. */
    ghost var submitted: seq<Entry>

    /** The sink holds exactly the submitted entries that pass the level filter, in order. */
    ghost predicate Valid()
      reads this
    {
      trace == Visible(level, submitted)
    }

    constructor (level: string := LevelInfo, logFile: Option<string> := None)
      ensures this.level == level && this.logFile == logFile
      ensures trace == [] && submitted == [] && Valid()
    {
      this.level := level;
      this.logFile := logFile;
      trace := [];
      submitted := [];
    }

    /** log(): the entry reaches the sink iff shouldLog() lets it through. */
    method Log(msgLevel: string, message: string)
      requires Valid()
      modifies this
      ensures Valid() && submitted == old(submitted) + [Entry(msgLevel, message)]
      ensures trace == old(trace) + Visible(level, [Entry(msgLevel, message)])
    {
      if ShouldLog(level, msgLevel) {
        trace := trace + [Entry(msgLevel, message)];
      }
      VisibleAppend(level, submitted, [Entry(msgLevel, message)]);
      submitted := submitted + [Entry(msgLevel, message)];
    }

    /** debug() */
    method Debug(message: string)
      requires Valid()
      modifies this
      ensures Valid() && submitted == old(submitted) + [Entry(LevelDebug, message)]
    {
      Log(LevelDebug, message);
    }

    /** info() */
    method Info(message: string)
      requires Valid()
      modifies this
      ensures Valid() && submitted == old(submitted) + [Entry(LevelInfo, message)]
    {
      Log(LevelInfo, message);
    }

    /** warning() */
    method Warning(message: string)
      requires Valid()
      modifies this
      ensures Valid() && submitted == old(submitted) + [Entry(LevelWarning, message)]
    {
      Log(LevelWarning, message);
    }

    /** error() */
    method Error(message: string)
      requires Valid()
      modifies this
      ensures Valid() && submitted == old(submitted) + [Entry(LevelError, message)]
    {
      Log(LevelError, message);
    }

    /** logOutput(): stderr's entries first, then stdout's. */
    method LogOutput(stdout: string, stderr: string)
      requires Valid()
      modifies this
      ensures Valid() && submitted == old(submitted) + OutputEntries(stdout, stderr)
    {
      ghost var before := submitted;
      if stderr != "" {
        LogStdErr(stderr);
      }
      assert submitted == before + StdErrPart(stderr);
      ghost var mid := submitted;
      if stdout != "" {
        var debugOutput := ExtractDebugOutput(stdout);
        if debugOutput != "" {
          Debug("Output: " + debugOutput);
          assert StdOutPart(stdout) == [Entry(LevelDebug, "Output: " + debugOutput)];
        } else {
          assert StdOutPart(stdout) == [];
        }
      }
      assert submitted == mid + StdOutPart(stdout);
      AppendAssoc(before, StdErrPart(stderr), StdOutPart(stdout));
    }

    /** logStdErr(): the error entry, then the warning entry, for the lines of stderr. */
    method LogStdErr(stderr: string)
      requires Valid()
      modifies this
      ensures Valid() && submitted == old(submitted) + StdErrEntries(Split(stderr, '\n'))
    {
      var lines := Split(stderr, '\n');
      var errorLines, warningLines := CollectStdErr(lines);
      ReportStdErr(errorLines, warningLines);
    }

    /** The two writes that end logStdErr(), one per non-empty bucket. */
    method ReportStdErr(errorLines: seq<string>, warningLines: seq<string>)
      requires Valid()
      modifies this
      ensures Valid() && submitted == old(submitted) + (Bucket(LevelError, errorLines) + Bucket(LevelWarning, warningLines))
    {
      ghost var before := submitted;
      if errorLines != [] {
        Error("Output: " + Join(errorLines, " | "));
      }
      assert submitted == before + Bucket(LevelError, errorLines);
      if warningLines != [] {
        Warning("Output: " + Join(warningLines, " | "));
      }
      AppendAssoc(before, Bucket(LevelError, errorLines), Bucket(LevelWarning, warningLines));
    }

    /** extractDebugOutput(): the surviving stdout lines, trimmed, joined by single spaces. */
    method ExtractDebugOutput(stdout: string) returns (output: string)
      ensures output == DebugText(Split(stdout, '\n'))
    {
      var lines := Split(stdout, '\n');
      ghost var ls := OutLines(lines);
      var debugLines: seq<string> := [];
      for i := 0 to |lines|
        invariant debugLines == DebugLines(ls[..i])
      {
        var line := lines[i];
        DebugLinesStep(lines, i);
        if Trim(line) == "" {
          continue;
        }
        if StartsWithAny(line, StdoutMarkers) {
          continue;
        }
        if IsStackTrace(line) {
          continue;
        }
        debugLines := debugLines + [Trim(line)];
      }
      assert ls[..|lines|] == ls;
      output := Join(debugLines, " ");
    }
  }
}
