/**
 * ArgumentParser.php: the command line is consumed left to right; `--long`
 * and `-s` options are looked up in the option table, boolean options are
 * switched on, valued options take the next element, anything else names
 * the script. The parsed options are then turned into the option array the
 * Config constructor reads.
 */
module CliArgs {
  import opened Wrappers
  import opened SeqFacts
  import opened PhpText
  import opened PhpValue
  import Settings

  // ---------------------------------------------------------------------------
  // The option table (CommandList::options())
  // ---------------------------------------------------------------------------

  /** The value type a table entry declares: `'int'`, `'string'` or `'bool'`. */
  datatype OptionKind = IntOption | StringOption | BoolOption

  datatype OptionDef = OptionDef(short: string, long: string, kind: OptionKind)

  /**
   * The option definitions in table order. The parser keys them by long name
   * in an ordered dictionary; the long names are unique (LongNamesUnique), so
   * the table itself serves as that dictionary.
   */
  const OptionTable: seq<OptionDef> := [
    OptionDef("i", "interval", IntOption),
    OptionDef("m", "max-memory", StringOption),
    OptionDef("t", "max-runtime", IntOption),
    OptionDef("n", "max-cycles", IntOption),
    OptionDef("lf", "log-file", StringOption),
    OptionDef("ll", "log-level", StringOption),
    OptionDef("e", "env", StringOption),
    OptionDef("V", "version", BoolOption),
    OptionDef("v", "verbose", BoolOption),
    OptionDef("q", "quiet", BoolOption),
    OptionDef("c", "config", BoolOption),
    OptionDef("h", "help", BoolOption)]

  /** The keys the options are stored under: the long names in camelCase. */
  const CamelKeys: seq<string> := [
    "interval", "maxMemory", "maxRuntime", "maxCycles", "logFile", "logLevel",
    "env", "version", "verbose", "quiet", "config", "help"]

  lemma LongNamesUnique()
    ensures forall i, j :: 0 <= i < j < |OptionTable| ==> OptionTable[i].long != OptionTable[j].long
  {
  }

  /** `$optionDefinitions[$name]`: the entry with that long name. */
  function LongIndex(name: string): (r: Option<nat>)
    ensures r.Some? ==> r.value < |OptionTable| && OptionTable[r.value].long == name
  {
    LongIndexFrom(0, name)
  }

  function LongIndexFrom(from: nat, name: string): (r: Option<nat>)
    ensures r.Some? ==> from <= r.value < |OptionTable| && OptionTable[r.value].long == name
    decreases |OptionTable| - from
  {
    if from >= |OptionTable| then None
    else if OptionTable[from].long == name then Some(from)
    else LongIndexFrom(from + 1, name)
  }

  /** The first entry, in table order, with that short name: what parseShortOption() searches for. */
  function ShortIndexFrom(from: nat, short: string): (r: Option<nat>)
    ensures r.Some? ==> from <= r.value < |OptionTable| && OptionTable[r.value].short == short
    decreases |OptionTable| - from
  {
    if from >= |OptionTable| then None
    else if OptionTable[from].short == short then Some(from)
    else ShortIndexFrom(from + 1, short)
  }

  /** An unknown name is exactly one that no entry carries. */
  lemma {:induction false} LongIndexNoneIff(from: nat, name: string)
    ensures LongIndexFrom(from, name).None? <==> forall i :: from <= i < |OptionTable| ==> OptionTable[i].long != name
    decreases |OptionTable| - from
  {
    if from < |OptionTable| {
      LongIndexNoneIff(from + 1, name);
    }
  }

  /** The search finds the first match. */
  lemma {:induction false} ShortIndexIsFirst(from: nat, short: string)
    ensures ShortIndexFrom(from, short).Some? ==>
      forall j :: from <= j < ShortIndexFrom(from, short).value ==> OptionTable[j].short != short
    decreases |OptionTable| - from
  {
    if from < |OptionTable| && OptionTable[from].short != short {
      ShortIndexIsFirst(from + 1, short);
    }
  }

  /** The search fails only when no entry carries the name. */
  lemma {:induction false} ShortIndexNoneIff(from: nat, short: string)
    ensures ShortIndexFrom(from, short).None? <==>
      forall j :: from <= j < |OptionTable| ==> OptionTable[j].short != short
    decreases |OptionTable| - from
  {
    if from < |OptionTable| {
      ShortIndexNoneIff(from + 1, short);
    }
  }

  /** `--name=value` is never a known name: no long name contains `=`. */
  lemma EqualsFormIsUnknown(name: string, value: string)
    ensures LongIndex(name + "=" + value).None?
  {
    var arg := name + "=" + value;
    assert arg[|name|] == '=';
    forall i | 0 <= i < |OptionTable| ensures OptionTable[i].long != arg {
      assert '=' !in OptionTable[i].long;
    }
    LongIndexNoneIff(0, arg);
  }

  // ---------------------------------------------------------------------------
  // camelCase keys
  // ---------------------------------------------------------------------------

  /** toCamelCase(): hyphens become word breaks, words are capitalised, joined, and the first letter lowered. */
  function ToCamelCase(name: string): string {
    LowerFirst(RemoveChar(UpperWords(ReplaceChar(name, '-', ' ')), ' '))
  }

  /** A nonempty run of lower-case ASCII letters. */
  predicate IsLowerWord(w: string) {
    |w| > 0 && forall i :: 0 <= i < |w| ==> 'a' <= w[i] <= 'z'
  }

  predicate AllLowerWords(ws: seq<string>) {
    forall i :: 0 <= i < |ws| ==> IsLowerWord(ws[i])
  }

  function Capitalized(w: string): string {
    if w == [] then [] else [UpperChar(w[0])] + w[1..]
  }

  function CapitalizedConcat(ws: seq<string>): string
    decreases |ws|
  {
    if ws == [] then "" else Capitalized(ws[0]) + CapitalizedConcat(ws[1..])
  }

  lemma {:induction false} HyphensToSpaces(ws: seq<string>)
    requires |ws| >= 1 && AllLowerWords(ws)
    ensures ReplaceChar(Join(ws, "-"), '-', ' ') == Join(ws, " ")
    decreases |ws|
  {
    assert '-' !in ws[0];
    ReplaceCharAbsent(ws[0], '-', ' ');
    if |ws| > 1 {
      var rest := ws[1..];
      assert AllLowerWords(rest) by {
        forall i | 0 <= i < |rest| ensures IsLowerWord(rest[i]) {
          assert rest[i] == ws[i + 1];
        }
      }
      HyphensToSpaces(rest);
      ReplaceCharAppend(ws[0] + "-", Join(rest, "-"), '-', ' ');
      ReplaceCharAppend(ws[0], "-", '-', ' ');
    }
  }

  lemma CapitalizedHasNoSpace(w: string)
    requires IsLowerWord(w)
    ensures ' ' !in Capitalized(w) && |Capitalized(w)| == |w|
  {
    assert forall i :: 1 <= i < |w| ==> Capitalized(w)[i] == w[i];
  }

  /** ucwords() then removing the spaces turns one lower-case word into its capitalised form. */
  lemma WordToCapitalized(w: string)
    requires IsLowerWord(w)
    ensures RemoveChar(UpperWords(w), ' ') == Capitalized(w)
  {
    assert forall i :: 0 <= i < |w| ==> !IsWordDelimiter(w[i]);
    UpperWordsOfWord(w);
    CapitalizedHasNoSpace(w);
    RemoveCharAbsent(Capitalized(w), ' ');
  }

  /** A word followed by a space and more text: the word is capitalised, and the next text starts a word. */
  lemma WordThenSpace(w: string, j: string)
    requires IsLowerWord(w)
    ensures RemoveChar(UpperWords((w + " ") + j), ' ') == Capitalized(w) + RemoveChar(UpperWords(j), ' ')
  {
    var ws := w + " ";
    var u := UpperWords(w);
    assert ws[|ws| - 1] == ' ';
    UpperWordsAfterAppend(true, ws, j);
    assert UpperWords(ws + j) == UpperWords(ws) + UpperWords(j);
    UpperWordsAfterAppend(true, w, " ");
    assert UpperWordsAfter(false, " ") == " ";
    assert UpperWords(ws) == u + " ";
    RemoveCharAppend(u + " ", UpperWords(j), ' ');
    RemoveCharAppend(u, " ", ' ');
    assert RemoveChar(" ", ' ') == "";
    assert RemoveChar(u + " ", ' ') == RemoveChar(u, ' ');
    WordToCapitalized(w);
  }

  lemma {:induction false} SpacedWordsToCapitalized(ws: seq<string>)
    requires |ws| >= 1 && AllLowerWords(ws)
    ensures RemoveChar(UpperWords(Join(ws, " ")), ' ') == CapitalizedConcat(ws)
    decreases |ws|
  {
    var w := ws[0];
    if |ws| == 1 {
      WordToCapitalized(w);
      assert CapitalizedConcat(ws) == Capitalized(w) + "";
    } else {
      var rest := ws[1..];
      assert AllLowerWords(rest) by {
        forall i | 0 <= i < |rest| ensures IsLowerWord(rest[i]) {
          assert rest[i] == ws[i + 1];
        }
      }
      var j := Join(rest, " ");
      assert Join(ws, " ") == (w + " ") + j;
      WordThenSpace(w, j);
      SpacedWordsToCapitalized(rest);
    }
  }

  /**
   * toCamelCase() on kebab-case: the first word is kept, every later word is
   * capitalised, and the hyphens disappear (`max-cycles` becomes `maxCycles`).
   */
  lemma KebabToCamel(ws: seq<string>)
    requires |ws| >= 1 && AllLowerWords(ws)
    ensures ToCamelCase(Join(ws, "-")) == ws[0] + CapitalizedConcat(ws[1..])
  {
    HyphensToSpaces(ws);
    SpacedWordsToCapitalized(ws);
    assert CapitalizedConcat(ws) == Capitalized(ws[0]) + CapitalizedConcat(ws[1..]);
    LowerFirstOfCapitalized(ws[0], CapitalizedConcat(ws[1..]));
  }

  /** lcfirst() undoes the capital that ucwords() gave the first word. */
  lemma LowerFirstOfCapitalized(w: string, tail: string)
    requires IsLowerWord(w)
    ensures LowerFirst(Capitalized(w) + tail) == w + tail
  {
    var c := Capitalized(w) + tail;
    assert c[0] == UpperChar(w[0]) && c[1..] == w[1..] + tail;
    assert 'a' <= w[0] <= 'z';
    LowerOfUpper(w[0]);
    assert LowerFirst(c) == [w[0]] + (w[1..] + tail);
    AppendAssoc([w[0]], w[1..], tail);
    assert [w[0]] + w[1..] == w;
  }

  lemma CamelOfOneWord(w: string)
    requires IsLowerWord(w)
    ensures ToCamelCase(w) == w
  {
    KebabToCamel([w]);
    assert Join([w], "-") == w;
    assert w + CapitalizedConcat([]) == w;
  }

  lemma CamelOfTwoWords(a: string, b: string)
    requires IsLowerWord(a) && IsLowerWord(b)
    ensures ToCamelCase(a + "-" + b) == a + Capitalized(b)
  {
    KebabToCamel([a, b]);
    assert Join([a, b], "-") == a + "-" + b;
    assert [a, b][1..] == [b];
    assert CapitalizedConcat([b]) == Capitalized(b) + "";
  }

  /** Every option is stored under the camelCase key listed for it. */
  lemma CamelKeysOfTable(i: nat)
    requires i < |OptionTable|
    ensures ToCamelCase(OptionTable[i].long) == CamelKeys[i]
  {
    if 1 <= i <= 5 { CamelKeysOfTwoWords(i); }
    else { CamelKeysOfOneWord(i); }
  }

  lemma CamelKeysOfOneWord(i: nat)
    requires i == 0 || 6 <= i < |OptionTable|
    ensures ToCamelCase(OptionTable[i].long) == CamelKeys[i]
  {
    var w := OptionTable[i].long;
    assert w == CamelKeys[i];
    assert IsLowerWord(w);
    CamelOfOneWord(w);
  }

  lemma CamelKeysOfTwoWords(i: nat)
    requires 1 <= i <= 5
    ensures ToCamelCase(OptionTable[i].long) == CamelKeys[i]
  {
    if i <= 3 { CamelKeysOfMaxWords(i); }
    else if i == 4 { CamelOfHyphenated(OptionTable[i].long, "log", "file", 'F', CamelKeys[i]); }
    else { CamelOfHyphenated(OptionTable[i].long, "log", "level", 'L', CamelKeys[i]); }
  }

  lemma CamelKeysOfMaxWords(i: nat)
    requires 1 <= i <= 3
    ensures ToCamelCase(OptionTable[i].long) == CamelKeys[i]
  {
    if i == 1 { CamelOfHyphenated(OptionTable[i].long, "max", "memory", 'M', CamelKeys[i]); }
    else if i == 2 { CamelOfHyphenated(OptionTable[i].long, "max", "runtime", 'R', CamelKeys[i]); }
    else { CamelOfHyphenated(OptionTable[i].long, "max", "cycles", 'C', CamelKeys[i]); }
  }

  /** `a-b` becomes `a` followed by `b` with its first letter `u` upper-cased. */
  lemma CamelOfHyphenated(name: string, a: string, b: string, u: char, key: string)
    requires IsLowerWord(a) && IsLowerWord(b) && name == a + "-" + b
    requires u as int == b[0] as int - 32 && key == a + [u] + b[1..]
    ensures ToCamelCase(name) == key
  {
    CamelOfTwoWords(a, b);
  }

  // ---------------------------------------------------------------------------
  // One element at a time
  // ---------------------------------------------------------------------------

  /** castValue(): int options are cast with `(int)`, bool options are true, the rest stay strings. */
  function CastValue(kind: OptionKind, value: string): Value {
    match kind
    case IntOption => Int(IntCast(value))
    case BoolOption => Bool(true)
    case StringOption => Str(value)
  }

  /** The stored value has the type the table declares. */
  predicate Fits(kind: OptionKind, v: Value) {
    match kind
    case IntOption => v.Int?
    case StringOption => v.Str?
    case BoolOption => v == Bool(true)
  }

  lemma CastValueFits(kind: OptionKind, value: string)
    ensures Fits(kind, CastValue(kind, value))
    ensures kind == StringOption ==> CastValue(kind, value) == Str(value)
  {
  }

  /** An integer option given in decimal is stored as that integer. */
  lemma CastValueOfNumber(n: int)
    ensures CastValue(IntOption, IntToString(n)) == Int(n)
  {
    IntCastOfIntToString(n, "");
    assert IntToString(n) + "" == IntToString(n);
  }

  /** looksLikePhpScript(): a `.php` name or an existing file. */
  predicate LooksLikePhpScript(arg: string, fileExists: string -> bool) {
    EndsWith(arg, ".php") || fileExists(arg)
  }

  /** The parser's fields. */
  datatype ParseState = ParseState(
    script: Option<string>,
    isCliCommand: bool,
    options: Options,
    errors: seq<string>)

  const Initial := ParseState(None, false, map[], [])

  /** parseLongOption(): the new state and the elements left after `--name`. */
  function LongOption(st: ParseState, name: string, argv: seq<string>): (r: (ParseState, seq<string>))
    ensures r.1 == argv || (|argv| > 0 && r.1 == argv[1..])
    ensures st.errors <= r.0.errors
  {
    match LongIndex(name)
    case None => (st.(errors := st.errors + ["Unknown option: --" + name]), argv)
    case Some(i) =>
      if OptionTable[i].kind == BoolOption then
        (st.(options := st.options[ToCamelCase(name) := Bool(true)]), argv)
      else if |argv| > 0 && !StartsWith(argv[0], "-") then
        (st.(options := st.options[ToCamelCase(name) := CastValue(OptionTable[i].kind, argv[0])]), argv[1..])
      else
        (st.(errors := st.errors + ["Option --" + name + " requires a value"]), argv)
  }

  /** parseShortOption(): the new state and the elements left after `-s`. */
  function ShortOption(st: ParseState, short: string, argv: seq<string>): (r: (ParseState, seq<string>))
    ensures r.1 == argv || (|argv| > 0 && r.1 == argv[1..])
    ensures st.errors <= r.0.errors
  {
    match ShortIndexFrom(0, short)
    case None => (st.(errors := st.errors + ["Unknown option: -" + short]), argv)
    case Some(i) =>
      var key := ToCamelCase(OptionTable[i].long);
      if OptionTable[i].kind == BoolOption then
        (st.(options := st.options[key := Bool(true)]), argv)
      else if |argv| == 0 || StartsWith(argv[0], "-") then
        (st.(errors := st.errors + ["Option -" + short + " requires a value"]), argv)
      else
        (st.(options := st.options[key := CastValue(OptionTable[i].kind, argv[0])]), argv[1..])
  }

  /** One turn of the loop in parse(): the element `arg` has been shifted off, `argv` is what follows. */
  function Step(st: ParseState, arg: string, argv: seq<string>, fileExists: string -> bool): (r: (ParseState, seq<string>))
    ensures r.1 == argv || (|argv| > 0 && r.1 == argv[1..])
    ensures st.errors <= r.0.errors
  {
    if StartsWith(arg, "--") then LongOption(st, arg[2..], argv)
    else if StartsWith(arg, "-") && |arg| > 1 then ShortOption(st, arg[1..], argv)
    else (st.(script := Some(arg), isCliCommand := !LooksLikePhpScript(arg, fileExists)), argv)
  }

  /** The state after the remaining elements have been consumed, left to right. */
  function ParseFrom(st: ParseState, args: seq<string>, fileExists: string -> bool): ParseState
    decreases |args|
  {
    if args == [] then st
    else
      var (next, rest) := Step(st, args[0], args[1..], fileExists);
      ParseFrom(next, rest, fileExists)
  }

  /** parse(): the program name in `argv[0]` is dropped first. */
  function ParseArgv(argv: seq<string>, fileExists: string -> bool): ParseState {
    ParseFrom(Initial, if argv == [] then [] else argv[1..], fileExists)
  }

  // ---------------------------------------------------------------------------
  // What parsing promises
  // ---------------------------------------------------------------------------

  /** parse() handles the first remaining element, then the rest. */
  lemma ParseFromCons(st: ParseState, arg: string, rest: seq<string>, fileExists: string -> bool)
    ensures ParseFrom(st, [arg] + rest, fileExists)
         == ParseFrom(Step(st, arg, rest, fileExists).0, Step(st, arg, rest, fileExists).1, fileExists)
  {
    var args := [arg] + rest;
    assert args[0] == arg && args[1..] == rest;
  }

  /** `--` followed by a name goes to parseLongOption(). */
  lemma LongStep(st: ParseState, name: string, argv: seq<string>, fileExists: string -> bool)
    ensures Step(st, "--" + name, argv, fileExists) == LongOption(st, name, argv)
  {
    assert ("--" + name)[2..] == name;
  }

  /** `-` followed by a name that does not start with `-` goes to parseShortOption(). */
  lemma ShortStep(st: ParseState, short: string, argv: seq<string>, fileExists: string -> bool)
    requires short != "" && short[0] != '-'
    ensures Step(st, "-" + short, argv, fileExists) == ShortOption(st, short, argv)
  {
    var arg := "-" + short;
    assert arg[1] == short[0] && arg[1..] == short;
    assert !StartsWith(arg, "--");
  }

  /** An unknown `--name` is reported, nothing else is consumed, and parsing carries on. */
  lemma UnknownLongOption(st: ParseState, name: string, argv: seq<string>, fileExists: string -> bool)
    requires LongIndex(name).None?
    ensures Step(st, "--" + name, argv, fileExists)
         == (st.(errors := st.errors + ["Unknown option: --" + name]), argv)
  {
    LongStep(st, name, argv, fileExists);
  }

  /** An unknown `-x` is reported, nothing else is consumed, and parsing carries on. */
  lemma UnknownShortOption(st: ParseState, short: string, argv: seq<string>, fileExists: string -> bool)
    requires short != "" && short[0] != '-' && ShortIndexFrom(0, short).None?
    ensures Step(st, "-" + short, argv, fileExists)
         == (st.(errors := st.errors + ["Unknown option: -" + short]), argv)
  {
    ShortStep(st, short, argv, fileExists);
  }

  /** Errors are only ever appended. */
  lemma {:induction false} ErrorsOnlyGrow(st: ParseState, args: seq<string>, fileExists: string -> bool)
    ensures st.errors <= ParseFrom(st, args, fileExists).errors
    decreases |args|
  {
    if args != [] {
      var (next, rest) := Step(st, args[0], args[1..], fileExists);
      ErrorsOnlyGrow(next, rest, fileExists);
      PrefixTrans(st.errors, next.errors, ParseFrom(next, rest, fileExists).errors);
    }
  }

  lemma PrefixTrans(a: seq<string>, b: seq<string>, c: seq<string>)
    requires a <= b && b <= c
    ensures a <= c
  {
    assert c[..|b|][..|a|] == c[..|a|];
  }

  /** Once an unknown option has been seen, hasErrors() holds at the end. */
  lemma UnknownLongOptionReported(st: ParseState, name: string, rest: seq<string>, fileExists: string -> bool)
    requires LongIndex(name).None?
    ensures "Unknown option: --" + name in ParseFrom(st, ["--" + name] + rest, fileExists).errors
  {
    ParseFromCons(st, "--" + name, rest, fileExists);
    UnknownLongOption(st, name, rest, fileExists);
    var st' := st.(errors := st.errors + ["Unknown option: --" + name]);
    ErrorsOnlyGrow(st', rest, fileExists);
    assert st'.errors[|st.errors|] == "Unknown option: --" + name;
  }

  /** The name of an entry finds that entry. */
  lemma LongIndexIsEntry(i: nat)
    requires i < |OptionTable|
    ensures LongIndex(OptionTable[i].long) == Some(i)
  {
    LongNamesUnique();
    LongIndexNoneIff(0, OptionTable[i].long);
    var r := LongIndex(OptionTable[i].long);
    assert r.Some?;
    assert r.value == i;
  }

  /**
   * `--long`: a boolean option is switched on and takes nothing with it; a
   * valued option takes the next element when there is one that does not
   * start with `-`, and is otherwise reported as missing its value, taking
   * nothing.
   */
  lemma KnownLongOption(st: ParseState, i: nat, argv: seq<string>, fileExists: string -> bool)
    requires i < |OptionTable|
    ensures var long := OptionTable[i].long;
      var kind := OptionTable[i].kind;
      Step(st, "--" + long, argv, fileExists)
      == if kind == BoolOption then
           (st.(options := st.options[CamelKeys[i] := Bool(true)]), argv)
         else if argv != [] && !StartsWith(argv[0], "-") then
           (st.(options := st.options[CamelKeys[i] := CastValue(kind, argv[0])]), argv[1..])
         else
           (st.(errors := st.errors + ["Option --" + long + " requires a value"]), argv)
  {
    LongStep(st, OptionTable[i].long, argv, fileExists);
    LongIndexIsEntry(i);
    CamelKeysOfTable(i);
  }

  /** A short name finds its entry. */
  lemma ShortIndexIsEntry(i: nat)
    requires i < |OptionTable|
    ensures ShortIndexFrom(0, OptionTable[i].short) == Some(i)
  {
    ShortIndexIsFirst(0, OptionTable[i].short);
    ShortIndexNoneIff(0, OptionTable[i].short);
    var r := ShortIndexFrom(0, OptionTable[i].short);
    assert forall j, k :: 0 <= j < k < |OptionTable| ==> OptionTable[j].short != OptionTable[k].short;
    assert r.Some?;
  }

  /** `-s`: the same as the long form, except that the message names the short form. */
  lemma KnownShortOption(st: ParseState, i: nat, argv: seq<string>, fileExists: string -> bool)
    requires i < |OptionTable|
    ensures var short := OptionTable[i].short;
      var kind := OptionTable[i].kind;
      Step(st, "-" + short, argv, fileExists)
      == if kind == BoolOption then
           (st.(options := st.options[CamelKeys[i] := Bool(true)]), argv)
         else if argv == [] || StartsWith(argv[0], "-") then
           (st.(errors := st.errors + ["Option -" + short + " requires a value"]), argv)
         else
           (st.(options := st.options[CamelKeys[i] := CastValue(kind, argv[0])]), argv[1..])
  {
    var short := OptionTable[i].short;
    assert short != "" && short[0] != '-';
    ShortStep(st, short, argv, fileExists);
    ShortIndexIsEntry(i);
    CamelKeysOfTable(i);
  }

  /** Any other element, a lone `-` included, names the script, replacing an earlier one. */
  lemma ScriptArgument(st: ParseState, arg: string, argv: seq<string>, fileExists: string -> bool)
    requires !StartsWith(arg, "-") || arg == "-"
    ensures Step(st, arg, argv, fileExists)
         == (st.(script := Some(arg), isCliCommand := !(EndsWith(arg, ".php") || fileExists(arg))), argv)
  {
    assert !StartsWith(arg, "--") by {
      if |arg| >= 2 { assert arg[..2][..1] == arg[..1]; }
    }
  }

  /** Every stored option sits under the key of a table entry, with the type the entry declares. */
  predicate TypedOptions(options: Options) {
    forall k :: k in options ==> KeyFits(k, options[k])
  }

  predicate KeyFits(k: string, v: Value) {
    exists i :: 0 <= i < |OptionTable| && CamelKeys[i] == k && Fits(OptionTable[i].kind, v)
  }

  lemma StoreFits(options: Options, i: nat, v: Value)
    requires TypedOptions(options) && i < |OptionTable| && Fits(OptionTable[i].kind, v)
    ensures TypedOptions(options[CamelKeys[i] := v])
  {
    assert KeyFits(CamelKeys[i], v);
  }

  lemma StepKeepsTyped(st: ParseState, arg: string, argv: seq<string>, fileExists: string -> bool)
    requires TypedOptions(st.options)
    ensures TypedOptions(Step(st, arg, argv, fileExists).0.options)
  {
    if StartsWith(arg, "--") {
      var name := arg[2..];
      if LongIndex(name).Some? {
        var i := LongIndex(name).value;
        CamelKeysOfTable(i);
        if OptionTable[i].kind == BoolOption {
          StoreFits(st.options, i, Bool(true));
        } else if |argv| > 0 && !StartsWith(argv[0], "-") {
          CastValueFits(OptionTable[i].kind, argv[0]);
          StoreFits(st.options, i, CastValue(OptionTable[i].kind, argv[0]));
        }
      }
    } else if StartsWith(arg, "-") && |arg| > 1 {
      var short := arg[1..];
      if ShortIndexFrom(0, short).Some? {
        var i := ShortIndexFrom(0, short).value;
        CamelKeysOfTable(i);
        if OptionTable[i].kind == BoolOption {
          StoreFits(st.options, i, Bool(true));
        } else if |argv| > 0 && !StartsWith(argv[0], "-") {
          CastValueFits(OptionTable[i].kind, argv[0]);
          StoreFits(st.options, i, CastValue(OptionTable[i].kind, argv[0]));
        }
      }
    }
  }

  /** Parsing only ever stores table options with their declared types. */
  lemma {:induction false} ParseKeepsTyped(st: ParseState, args: seq<string>, fileExists: string -> bool)
    requires TypedOptions(st.options)
    ensures TypedOptions(ParseFrom(st, args, fileExists).options)
    decreases |args|
  {
    if args != [] {
      StepKeepsTyped(st, args[0], args[1..], fileExists);
      var (next, rest) := Step(st, args[0], args[1..], fileExists);
      ParseKeepsTyped(next, rest, fileExists);
    }
  }

  // ---------------------------------------------------------------------------
  // toConfigArray()
  // ---------------------------------------------------------------------------

  /** The options copied into the configuration, each under its own name. */
  const ConfigMapping: seq<(string, string)> := [
    ("interval", "interval"),
    ("maxMemory", "maxMemory"),
    ("maxRuntime", "maxRuntime"),
    ("maxCycles", "maxCycles"),
    ("logFile", "logFile"),
    ("logLevel", "logLevel")]

  /** The configuration after the first mapping entries have been visited. */
  function Copied(pairs: seq<(string, string)>, options: Options, base: Options): Options
    decreases |pairs|
  {
    if pairs == [] then base
    else
      var config := Copied(pairs[..|pairs| - 1], options, base);
      var (option, configKey) := pairs[|pairs| - 1];
      if IsSet(options, option) then config[configKey := options[option]] else config
  }

  /** isQuiet(): `$options['quiet'] ?? false`. */
  predicate IsQuiet(options: Options) {
    ToBool(Coalesce(options, "quiet", Bool(false)))
  }

  /** The script entries, present only when a script was given. */
  function ScriptEntries(st: ParseState): Options {
    if st.script.Some? then map["script" := Str(st.script.value), "isCliCommand" := Bool(st.isCliCommand)]
    else map[]
  }

  function ConfigArray(st: ParseState): Options {
    var config := Copied(ConfigMapping, st.options, ScriptEntries(st));
    if IsQuiet(st.options) then config["logLevel" := Str("quiet")] else config
  }

  lemma {:induction false} CopiedAt(pairs: seq<(string, string)>, options: Options, base: Options, k: string)
    requires forall i :: 0 <= i < |pairs| ==> pairs[i] == (pairs[i].1, pairs[i].1)
    ensures k in Copied(pairs, options, base) <==> k in base || ((k, k) in pairs && IsSet(options, k))
    ensures k in Copied(pairs, options, base) ==>
      Copied(pairs, options, base)[k] == if (k, k) in pairs && IsSet(options, k) then options[k] else base[k]
    decreases |pairs|
  {
    if pairs != [] {
      var init := pairs[..|pairs| - 1];
      CopiedAt(init, options, base, k);
      assert pairs == init + [pairs[|pairs| - 1]];
    }
  }

  /** `script` and `isCliCommand` are present exactly when a script was given. */
  lemma ConfigArrayScript(st: ParseState)
    ensures "script" in ConfigArray(st) <==> st.script.Some?
    ensures "isCliCommand" in ConfigArray(st) <==> st.script.Some?
    ensures st.script.Some? ==>
      ConfigArray(st)["script"] == Str(st.script.value) && ConfigArray(st)["isCliCommand"] == Bool(st.isCliCommand)
  {
    CopiedAt(ConfigMapping, st.options, ScriptEntries(st), "script");
    CopiedAt(ConfigMapping, st.options, ScriptEntries(st), "isCliCommand");
  }

  /** A mapped option is copied exactly when it is set; `quiet` overrides the log level. */
  lemma ConfigArrayOption(st: ParseState, k: string)
    requires k in {"interval", "maxMemory", "maxRuntime", "maxCycles", "logFile", "logLevel"}
    ensures k == "logLevel" && IsQuiet(st.options) ==> k in ConfigArray(st) && ConfigArray(st)[k] == Str("quiet")
    ensures k != "logLevel" || !IsQuiet(st.options) ==>
      (k in ConfigArray(st) <==> IsSet(st.options, k))
      && (IsSet(st.options, k) ==> ConfigArray(st)[k] == st.options[k])
  {
    CopiedAt(ConfigMapping, st.options, ScriptEntries(st), k);
    assert (k, k) in ConfigMapping;
  }

  /** Nothing but the script entries and the six mapped options reaches the configuration. */
  lemma ConfigArrayKeys(st: ParseState)
    ensures ConfigArray(st).Keys
         <= {"script", "isCliCommand", "interval", "maxMemory", "maxRuntime", "maxCycles", "logFile", "logLevel"}
  {
    forall k | k in ConfigArray(st)
      ensures k in {"script", "isCliCommand", "interval", "maxMemory", "maxRuntime", "maxCycles", "logFile", "logLevel"}
    {
      CopiedAt(ConfigMapping, st.options, ScriptEntries(st), k);
    }
  }

  /** The configuration array can be handed to the Config constructor. */
  lemma ConfigArrayWellTyped(st: ParseState)
    requires TypedOptions(st.options)
    ensures Settings.WellTyped(ConfigArray(st))
  {
    ConfigArrayScript(st);
    ConfigArrayKeys(st);
    ConfigArrayOption(st, "logFile");
    if IsSet(st.options, "logFile") {
      var i :| 0 <= i < |OptionTable| && CamelKeys[i] == "logFile" && Fits(OptionTable[i].kind, st.options["logFile"]);
      assert i == 4;
    }
  }

  /** Whatever the command line, the parsed configuration can be handed to Config. */
  lemma ParsedConfigWellTyped(argv: seq<string>, fileExists: string -> bool)
    ensures Settings.WellTyped(ConfigArray(ParseArgv(argv, fileExists)))
  {
    ParseKeepsTyped(Initial, if argv == [] then [] else argv[1..], fileExists);
    ConfigArrayWellTyped(ParseArgv(argv, fileExists));
  }

  // ---------------------------------------------------------------------------
  // The parser object
  // ---------------------------------------------------------------------------

  class ArgumentParser {
    var script: Option<string>
    var isCliCommand: bool
    var options: Options
    var errors: seq<string>

    constructor()
      ensures State() == Initial
    {
      script := None;
      isCliCommand := false;
      options := map[];
      errors := [];
    }

    function State(): ParseState
      reads this
    {
      ParseState(script, isCliCommand, options, errors)
    }

    /** parse(): drop the program name, then consume the elements one by one. */
    method Parse(argv: seq<string>, fileExists: string -> bool)
      modifies this
      ensures State() == ParseFrom(old(State()), if argv == [] then [] else argv[1..], fileExists)
    {
      var rest := if argv == [] then [] else argv[1..];
      ghost var start := State();
      ghost var all := rest;
      while |rest| > 0
        invariant ParseFrom(State(), rest, fileExists) == ParseFrom(start, all, fileExists)
        decreases |rest|
      {
        var arg := rest[0];
        rest := ParseArgument(arg, rest[1..], fileExists);
      }
    }

    /** The body of parse()'s loop for one shifted element. */
    method ParseArgument(arg: string, argv: seq<string>, fileExists: string -> bool) returns (rest: seq<string>)
      modifies this
      ensures (State(), rest) == Step(old(State()), arg, argv, fileExists)
    {
      if StartsWith(arg, "--") {
        rest := ParseLongOption(arg[2..], argv);
      } else if StartsWith(arg, "-") && |arg| > 1 {
        rest := ParseShortOption(arg[1..], argv);
      } else {
        script := Some(arg);
        isCliCommand := !LooksLikePhpScript(arg, fileExists);
        rest := argv;
      }
    }

    /** parseLongOption() on the name after `--`. */
    method ParseLongOption(name: string, argv: seq<string>) returns (rest: seq<string>)
      modifies this
      ensures (State(), rest) == LongOption(old(State()), name, argv)
    {
      rest := argv;
      var value: Option<string> := None;
      var index := LongIndex(name);
      if index.None? {
        errors := errors + ["Unknown option: --" + name];
        return;
      }
      var option := OptionTable[index.value];
      if option.kind == BoolOption {
        options := options[ToCamelCase(name) := Bool(true)];
        return;
      }
      if value.None? && |rest| > 0 && !StartsWith(rest[0], "-") {
        value := Some(rest[0]);
        rest := rest[1..];
      }
      if value.None? {
        errors := errors + ["Option --" + name + " requires a value"];
        return;
      }
      options := options[ToCamelCase(name) := CastValue(option.kind, value.value)];
    }

    /** parseShortOption() on the name after `-`. */
    method ParseShortOption(short: string, argv: seq<string>) returns (rest: seq<string>)
      modifies this
      ensures (State(), rest) == ShortOption(old(State()), short, argv)
    {
      rest := argv;
      var index := FindShortOption(short);
      if index.None? {
        errors := errors + ["Unknown option: -" + short];
        return;
      }
      var option := OptionTable[index.value];
      if option.kind == BoolOption {
        options := options[ToCamelCase(option.long) := Bool(true)];
      } else {
        if |rest| == 0 || StartsWith(rest[0], "-") {
          errors := errors + ["Option -" + short + " requires a value"];
          return;
        }
        var value := rest[0];
        rest := rest[1..];
        options := options[ToCamelCase(option.long) := CastValue(option.kind, value)];
      }
    }

    /** toConfigArray() */
    method ToConfigArray() returns (config: Options)
      ensures config == ConfigArray(State())
    {
      config := map[];
      if script.Some? {
        config := config["script" := Str(script.value)];
        config := config["isCliCommand" := Bool(isCliCommand)];
      }
      assert config == ScriptEntries(State());
      for i := 0 to |ConfigMapping|
        invariant config == Copied(ConfigMapping[..i], options, ScriptEntries(State()))
      {
        var (option, configKey) := ConfigMapping[i];
        assert ConfigMapping[..i + 1][..i] == ConfigMapping[..i];
        if IsSet(options, option) {
          config := config[configKey := options[option]];
        }
      }
      assert ConfigMapping[..|ConfigMapping|] == ConfigMapping;
      if IsQuiet(options) {
        config := config["logLevel" := Str("quiet")];
      }
    }

    /** hasErrors() */
    predicate HasErrors()
      reads this
    {
      errors != []
    }
  }

  /** The search loop of parseShortOption(): the first entry with that short name. */
  method FindShortOption(short: string) returns (index: Option<nat>)
    ensures index == ShortIndexFrom(0, short)
  {
    index := None;
    var i := 0;
    while i < |OptionTable|
      invariant 0 <= i <= |OptionTable|
      invariant ShortIndexFrom(i, short) == ShortIndexFrom(0, short)
    {
      if OptionTable[i].short == short {
        index := Some(i);
        break;
      }
      i := i + 1;
    }
  }
}
