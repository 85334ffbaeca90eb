/**
 * The `--name=value` option parser of simplehttp (simplehttp/options.c) as
 * values. The option table is a map from option name to its record; parsing
 * a command line is a function from the table before to the table after and
 * the verdict (1 or 0 in the source). The class in OptionParser performs the
 * same loop in place and is proved against these functions.
 */
module OptionsModel {
  import opened Wrappers

  /** `enum option_type`; `OPT_FLOAT` has no parsing branch. */
  datatype OptionType = Bool | Str | Int | Float

  /**
   * One `struct Option`, without its callbacks, destination pointers and
   * hash handle. `valueStr` and `defaultStr` are None where the source holds
   * NULL; `required` says whether the record's `required` is `OPT_REQUIRED`.
   */
  datatype OptionRecord = OptionRecord(
    optionType: OptionType,
    required: bool,
    found: nat,
    valueStr: Option<string>,
    valueInt: int,
    defaultInt: int,
    defaultStr: Option<string>,
    help: Option<string>)

  type Table = map<string, OptionRecord>

  /** `strchr`: the position of the first `c` in `s`, if any. */
  function IndexOf(s: string, c: char): (r: Option<nat>)
    ensures r.None? <==> c !in s
    ensures r.Some? ==> r.value < |s| && s[r.value] == c && c !in s[..r.value]
  {
    if s == [] then None
    else if s[0] == c then Some(0)
    else
      match IndexOf(s[1..], c)
      case None => None
      case Some(i) =>
        assert s[..i + 1] == [s[0]] + s[1..][..i];
        Some(i + 1)
  }

  /** The argument that sets option `name` to `value`. */
  function Join(name: string, value: string): string
  {
    "--" + name + "=" + value
  }

  /**
   * The format check and the split of one argument: it must start with "--"
   * and contain an '='; the name is what lies between the "--" and the first
   * '=', the value everything after that '='.
   */
  function SplitArgument(arg: string): (r: Option<(string, string)>)
    ensures r.None? <==> !(|arg| >= 2 && arg[..2] == "--" && '=' in arg)
    ensures r.Some? ==> arg == Join(r.value.0, r.value.1) && '=' !in r.value.0
  {
    if |arg| >= 2 && arg[..2] == "--" && '=' in arg then
      var i := IndexOf(arg, '=').value;
      assert arg == arg[..2] + arg[2..i] + "=" + arg[i + 1..];
      assert arg[2..i] == arg[..i][2..];
      Some((arg[2..i], arg[i + 1..]))
    else None
  }

  /** Splitting the argument built from a name without '=' and any value gives them back. */
  lemma SplitJoin(name: string, value: string)
    requires '=' !in name
    ensures SplitArgument(Join(name, value)) == Some((name, value))
  {
    var arg := Join(name, value);
    var j := 2 + |name|;
    assert arg[..2] == "--" && arg[j] == '=' && arg[..j] == "--" + name && arg[j + 1..] == value;
    assert '=' !in arg[..j];
    var i := IndexOf(arg, '=').value;
    assert forall k :: 0 <= k < j ==> arg[..j][k] == arg[k];
    assert forall k :: 0 <= k < i ==> arg[..i][k] == arg[k];
    assert i == j;
  }

  /** `tolower` on ASCII. */
  function Lower(c: char): char
  {
    if 'A' <= c <= 'Z' then (c as int + 32) as char else c
  }

  function LowerAll(s: string): (r: string)
    ensures |r| == |s| && forall i :: 0 <= i < |s| ==> r[i] == Lower(s[i])
  {
    seq(|s|, i requires 0 <= i < |s| => Lower(s[i]))
  }

  /** `strcasecmp(a, b) == 0`. */
  predicate EqualsIgnoreCase(a: string, b: string)
  {
    |a| == |b| && forall i :: 0 <= i < |a| ==> Lower(a[i]) == Lower(b[i])
  }

  /** The value of a bool option: "false" or "true" in any mix of case, nothing else. */
  function ParseBool(value: string): Option<bool>
  {
    if EqualsIgnoreCase(value, "false") then Some(false)
    else if EqualsIgnoreCase(value, "true") then Some(true)
    else None
  }

  function BoolText(b: bool): string
  {
    if b then "true" else "false"
  }

  /** A bool value is accepted exactly when it reads "true" or "false" once lowered, and means that. */
  lemma ParseBoolMeans(value: string, b: bool)
    ensures ParseBool(value) == Some(b) <==> LowerAll(value) == BoolText(b)
  {
    assert LowerAll("true") == "true" && LowerAll("false") == "false";
    if LowerAll(value) == "true" {
      assert EqualsIgnoreCase(value, "true") && !EqualsIgnoreCase(value, "false");
    }
    if LowerAll(value) == "false" {
      assert EqualsIgnoreCase(value, "false");
    }
    if EqualsIgnoreCase(value, "true") {
      assert LowerAll(value) == LowerAll("true");
    }
    if EqualsIgnoreCase(value, "false") {
      assert LowerAll(value) == LowerAll("false");
    }
  }

  /**
   * The switch on the option's type and the `found++` after it: a string
   * option keeps the value, a bool option takes 1 or 0 (or refuses the
   * value), an int option takes `atoi` of it, a float option only counts it.
   */
  function ApplyValue(rec: OptionRecord, value: string, atoi: string -> int): (r: Option<OptionRecord>)
    ensures r.None? <==> rec.optionType == Bool && ParseBool(value).None?
    ensures r.Some? ==> r.value.found == rec.found + 1 && SameDefinition(rec, r.value) && Carries(r.value, value, atoi)
    ensures r.Some? && rec.optionType != Str ==> r.value.valueStr == rec.valueStr
    ensures r.Some? && (rec.optionType == Str || rec.optionType == Float) ==> r.value.valueInt == rec.valueInt
  {
    match rec.optionType
    case Str => Some(rec.(valueStr := Some(value), found := rec.found + 1))
    case Bool =>
      (match ParseBool(value)
       case None => None
       case Some(b) => Some(rec.(valueInt := if b then 1 else 0, found := rec.found + 1)))
    case Int => Some(rec.(valueInt := atoi(value), found := rec.found + 1))
    case Float => Some(rec.(found := rec.found + 1))
  }

  /** The record holds `value` as its option type reads it. */
  predicate Carries(rec: OptionRecord, value: string, atoi: string -> int)
  {
    match rec.optionType
    case Str => rec.valueStr == Some(value)
    case Bool => ParseBool(value).Some? && rec.valueInt == (if ParseBool(value).value then 1 else 0)
    case Int => rec.valueInt == atoi(value)
    case Float => true
  }

  /** Parsing changes only `found` and the values: type, requirement, defaults and help stay. */
  predicate SameDefinition(a: OptionRecord, b: OptionRecord)
  {
    b == a.(found := b.found, valueStr := b.valueStr, valueInt := b.valueInt)
  }

  /** Every option of `t` is in `u` with the same definition, and `u` has no other. */
  predicate SameDefinitions(t: Table, u: Table)
  {
    t.Keys == u.Keys && forall n :: n in t ==> SameDefinition(t[n], u[n])
  }

  /** One pass of the loop body on one argument: the new table, or None when the argument is refused. */
  function ApplyArgument(t: Table, arg: string, atoi: string -> int): (r: Option<Table>)
    ensures r.Some? ==> SameDefinitions(t, r.value)
  {
    match SplitArgument(arg)
    case None => None
    case Some((name, value)) =>
      if name !in t then None
      else
        match ApplyValue(t[name], value, atoi)
        case None => None
        case Some(rec) => Some(t[name := rec])
  }

  /** An argument the parser accepts against the definitions of `t`. */
  predicate Acceptable(t: Table, arg: string)
  {
    match SplitArgument(arg)
    case None => false
    case Some((name, value)) => name in t && (t[name].optionType == Bool ==> ParseBool(value).Some?)
  }

  /** The check after the loop: every option marked required was found. */
  predicate AllRequiredFound(t: Table)
  {
    forall n :: n in t && t[n].required ==> t[n].found > 0
  }

  /**
   * The loop over the arguments: apply each in order; stop with 0 at the
   * first refused one, keeping what earlier arguments set; after the last,
   * the verdict is the required-option check.
   */
  function ParseFrom(t: Table, args: seq<string>, atoi: string -> int): (r: (Table, bool))
    ensures SameDefinitions(t, r.0)
    ensures r.1 ==> AllRequiredFound(r.0)
    decreases |args|
  {
    if args == [] then (t, AllRequiredFound(t))
    else
      match ApplyArgument(t, args[0], atoi)
      case None => (t, false)
      case Some(t1) => ParseFrom(t1, args[1..], atoi)
  }

  /** `option_parse_command_line`: the arguments after the program name. */
  function Parse(t: Table, argv: seq<string>, atoi: string -> int): (r: (Table, bool))
    ensures SameDefinitions(t, r.0)
    ensures r.1 ==> AllRequiredFound(r.0)
  {
    ParseFrom(t, if argv == [] then [] else argv[1..], atoi)
  }

  lemma SameDefinitionsAcceptable(t: Table, u: Table, arg: string)
    requires SameDefinitions(t, u)
    ensures Acceptable(t, arg) == Acceptable(u, arg)
  {
  }

  /**
   * The verdict: 1 exactly when every argument is accepted and, after all of
   * them, every required option has been found.
   */
  lemma {:induction false} ParseVerdict(t: Table, args: seq<string>, atoi: string -> int)
    ensures var r := ParseFrom(t, args, atoi);
      r.1 <==> (forall i :: 0 <= i < |args| ==> Acceptable(t, args[i])) && AllRequiredFound(r.0)
    decreases |args|
  {
    if args != [] {
      match ApplyArgument(t, args[0], atoi)
      case None =>
      case Some(t1) =>
        ParseVerdict(t1, args[1..], atoi);
        forall i | 0 <= i < |args[1..]| ensures Acceptable(t, args[1..][i]) == Acceptable(t1, args[1..][i]) {
          SameDefinitionsAcceptable(t, t1, args[1..][i]);
        }
        assert forall i :: 1 <= i < |args| ==> args[i] == args[1..][i - 1];
    }
  }

  /** Whether `arg` sets option `name`. */
  predicate Names(arg: string, name: string)
  {
    SplitArgument(arg).Some? && SplitArgument(arg).value.0 == name
  }

  /** The number of arguments that set option `name`. */
  function Occurrences(args: seq<string>, name: string): nat
  {
    if args == [] then 0 else (if Names(args[0], name) then 1 else 0) + Occurrences(args[1..], name)
  }

  /** The value of the last argument that sets option `name`. */
  function LastValue(args: seq<string>, name: string): (r: Option<string>)
    ensures r.None? <==> Occurrences(args, name) == 0
  {
    if args == [] then None
    else
      match LastValue(args[1..], name)
      case Some(v) => Some(v)
      case None => if Names(args[0], name) then Some(SplitArgument(args[0]).value.1) else None
  }

  /**
   * After a parse that succeeds, each option's `found` has grown by the
   * number of arguments that name it, and the option holds the value of the
   * last of them; an option no argument names keeps its values.
   */
  lemma {:induction false} ParseRecords(t: Table, args: seq<string>, atoi: string -> int)
    requires ParseFrom(t, args, atoi).1
    ensures var u := ParseFrom(t, args, atoi).0;
      forall n :: n in t ==>
        && u[n].found == t[n].found + Occurrences(args, n)
        && (LastValue(args, n).Some? ==> Carries(u[n], LastValue(args, n).value, atoi))
        && (LastValue(args, n).None? ==> u[n].valueStr == t[n].valueStr && u[n].valueInt == t[n].valueInt)
        && (t[n].optionType != Str ==> u[n].valueStr == t[n].valueStr)
        && (t[n].optionType == Str || t[n].optionType == Float ==> u[n].valueInt == t[n].valueInt)
    decreases |args|
  {
    if args != [] {
      var t1 := ApplyArgument(t, args[0], atoi).value;
      ParseRecords(t1, args[1..], atoi);
      var u := ParseFrom(t, args, atoi).0;
      assert u == ParseFrom(t1, args[1..], atoi).0;
      var (name, value) := SplitArgument(args[0]).value;
      forall n | n in t
        ensures u[n].found == t[n].found + Occurrences(args, n)
        ensures LastValue(args, n).Some? ==> Carries(u[n], LastValue(args, n).value, atoi)
        ensures LastValue(args, n).None? ==> u[n].valueStr == t[n].valueStr && u[n].valueInt == t[n].valueInt
        ensures t[n].optionType != Str ==> u[n].valueStr == t[n].valueStr
        ensures t[n].optionType == Str || t[n].optionType == Float ==> u[n].valueInt == t[n].valueInt
      {
        if n == name && LastValue(args[1..], n).None? {
          assert u[n] == t1[n];
        }
      }
    }
  }

  /** `option_get_int`: -1 for an undefined name, the parsed value once found, otherwise the default. */
  function GetInt(t: Table, name: string): int
  {
    if name !in t then -1
    else if t[name].found > 0 then t[name].valueInt
    else t[name].defaultInt
  }

  /** `option_get_str`: None (NULL) for an undefined name, the parsed value once found, otherwise the default. */
  function GetStr(t: Table, name: string): Option<string>
  {
    if name !in t then None
    else if t[name].found > 0 then t[name].valueStr
    else t[name].defaultStr
  }

  /**
   * What the program reads back after a successful parse: for an int option
   * `atoi` of the last value given for it, for a string option that value;
   * when no argument names the option and it was not found before, its
   * default.
   */
  lemma ParseThenGet(t: Table, argv: seq<string>, atoi: string -> int, name: string)
    requires Parse(t, argv, atoi).1 && name in t
    ensures var u, args := Parse(t, argv, atoi).0, if argv == [] then [] else argv[1..];
      && (t[name].optionType == Int && LastValue(args, name).Some? ==>
            GetInt(u, name) == atoi(LastValue(args, name).value))
      && (t[name].optionType == Str && LastValue(args, name).Some? ==>
            GetStr(u, name) == LastValue(args, name))
      && (t[name].optionType == Bool && LastValue(args, name).Some? ==>
            ParseBool(LastValue(args, name).value).Some? &&
            GetInt(u, name) == (if ParseBool(LastValue(args, name).value).value then 1 else 0))
      && (t[name].optionType != Str && LastValue(args, name).Some? ==> GetStr(u, name) == t[name].valueStr)
      && (LastValue(args, name).None? && t[name].found == 0 ==>
            GetInt(u, name) == t[name].defaultInt && GetStr(u, name) == t[name].defaultStr)
  {
    ParseRecords(t, if argv == [] then [] else argv[1..], atoi);
  }

  /**
   * A name that was never defined stays undefined through a parse:
   * `option_get_int` gives -1 for it and `option_get_str` NULL.
   */
  lemma ParseKeepsUndefined(t: Table, argv: seq<string>, atoi: string -> int, name: string)
    requires name !in t
    ensures var u := Parse(t, argv, atoi).0;
      name !in u && GetInt(u, name) == -1 && GetStr(u, name).None?
  {
  }

  /**
   * `new_option`: nothing for a name already in the table, otherwise a fresh
   * record with nothing found, no value and the given requirement and help.
   * The source leaves `option_type` unset here and the define function sets
   * it next; the model takes that type as an argument. The record is not
   * added to the table.
   */
  function NewOption(t: Table, name: string, optionType: OptionType, required: bool, help: Option<string>): (r: Option<OptionRecord>)
    ensures r.None? <==> name in t
    ensures r.Some? ==>
      && r.value.optionType == optionType && r.value.required == required && r.value.help == help
      && r.value.found == 0 && r.value.valueStr.None? && r.value.valueInt == 0
      && r.value.defaultInt == 0 && r.value.defaultStr.None?
  {
    if name in t then None
    else Some(OptionRecord(optionType, required, 0, None, 0, 0, None, help))
  }

  /**
   * A record `new_option` builds, once in a table, reads back 0 and NULL until
   * an argument sets it; when it is required, a table holding it passes the
   * required-option check only once an argument has named it.
   */
  lemma NewOptionReadsDefaults(t: Table, name: string, optionType: OptionType, required: bool, help: Option<string>)
    requires name !in t
    ensures var u := t[name := NewOption(t, name, optionType, required, help).value];
      && GetInt(u, name) == 0 && GetStr(u, name).None?
      && (AllRequiredFound(u) <==> AllRequiredFound(t) && !required)
  {
    var u := t[name := NewOption(t, name, optionType, required, help).value];
    if AllRequiredFound(u) {
      forall n | n in t && t[n].required ensures t[n].found > 0 {
        assert n != name && u[n] == t[n];
      }
    }
  }

  /** A define's reply, -1 or 1, and the record it built. */
  type DefineResult = (int, Option<OptionRecord>)

  /** `option_define_int`: -1 for a name already defined, otherwise 1 and an int record with the default. */
  function DefineInt(t: Table, name: string, required: bool, defaultVal: int, help: Option<string>): (r: DefineResult)
    ensures r.0 == (if name in t then -1 else 1) && (r.1.Some? <==> r.0 == 1)
    ensures r.1.Some? ==> GetInt(map[name := r.1.value], name) == defaultVal && r.1.value.optionType == Int
    ensures r.1.Some? ==>
      && r.1.value.required == required && r.1.value.help == help
      && r.1.value.found == 0 && r.1.value.valueStr.None? && r.1.value.valueInt == 0
      && r.1.value.defaultInt == defaultVal && r.1.value.defaultStr.None?
  {
    match NewOption(t, name, Int, required, help)
    case None => (-1, None)
    case Some(rec) => (1, Some(rec.(defaultInt := defaultVal)))
  }

  /** `option_define_str`: the same for a string option, whose default may be NULL. */
  function DefineStr(t: Table, name: string, required: bool, defaultVal: Option<string>, help: Option<string>): (r: DefineResult)
    ensures r.0 == (if name in t then -1 else 1) && (r.1.Some? <==> r.0 == 1)
    ensures r.1.Some? ==> GetStr(map[name := r.1.value], name) == defaultVal && r.1.value.optionType == Str
    ensures r.1.Some? ==>
      && r.1.value.required == required && r.1.value.help == help
      && r.1.value.found == 0 && r.1.value.valueStr.None? && r.1.value.valueInt == 0
      && r.1.value.defaultInt == 0 && r.1.value.defaultStr == defaultVal
  {
    match NewOption(t, name, Str, required, help)
    case None => (-1, None)
    case Some(rec) => (1, Some(rec.(defaultStr := defaultVal)))
  }

  /** `option_define_bool`: the same for a bool option, its default an int. */
  function DefineBool(t: Table, name: string, required: bool, defaultVal: int, help: Option<string>): (r: DefineResult)
    ensures r.0 == (if name in t then -1 else 1) && (r.1.Some? <==> r.0 == 1)
    ensures r.1.Some? ==> GetInt(map[name := r.1.value], name) == defaultVal && r.1.value.optionType == Bool
    ensures r.1.Some? ==>
      && r.1.value.required == required && r.1.value.help == help
      && r.1.value.found == 0 && r.1.value.valueStr.None? && r.1.value.valueInt == 0
      && r.1.value.defaultInt == defaultVal && r.1.value.defaultStr.None?
  {
    match NewOption(t, name, Bool, required, help)
    case None => (-1, None)
    case Some(rec) => (1, Some(rec.(defaultInt := defaultVal)))
  }

  /**
   * As written, defining options never adds them to the table, so the table
   * of the program is the empty one it starts with, and every command line
   * with an argument after the program name is refused.
   */
  lemma EmptyTableRefusesArguments(argv: seq<string>, atoi: string -> int)
    ensures Parse(map[], argv, atoi) == (map[], |argv| <= 1)
  {
  }

  /**
   * As written: a define succeeds, yet the table the parser reads is the
   * one before it, so the argument that sets the option is refused as
   * unknown (and a second define of the name would succeed too).
   */
  lemma DefinedOptionStaysUnknown(t: Table, name: string, required: bool, defaultVal: int, help: Option<string>,
                                  prog: string, value: string, atoi: string -> int)
    requires name !in t && '=' !in name
    ensures DefineInt(t, name, required, defaultVal, help).0 == 1
    ensures Parse(t, [prog, Join(name, value)], atoi) == (t, false)
  {
    SplitJoin(name, value);
  }

  /** `option_define_int` as evidently intended: the new record goes into the table. */
  function DefineIntCorrected(t: Table, name: string, required: bool, defaultVal: int, help: Option<string>): (r: (int, Table))
    ensures r.0 == DefineInt(t, name, required, defaultVal, help).0
    ensures r.0 == -1 ==> r.1 == t
    ensures r.0 == 1 ==> r.1 == t[name := DefineInt(t, name, required, defaultVal, help).1.value]
  {
    match DefineInt(t, name, required, defaultVal, help)
    case (_, None) => (-1, t)
    case (s, Some(rec)) => (s, t[name := rec])
  }

  /**
   * With the define as intended, the option is known: an argument setting it
   * is accepted, a second define of the name is refused, and the program
   * reads back `atoi` of the value given.
   */
  lemma DefinedOptionParses(t: Table, name: string, required: bool, defaultVal: int, help: Option<string>,
                            prog: string, value: string, atoi: string -> int)
    requires name !in t && '=' !in name && AllRequiredFound(t)
    ensures var (status, t1) := DefineIntCorrected(t, name, required, defaultVal, help);
      var (u, ok) := Parse(t1, [prog, Join(name, value)], atoi);
      && status == 1 && DefineIntCorrected(t1, name, required, defaultVal, help).0 == -1
      && ok && GetInt(u, name) == atoi(value)
  {
    SplitJoin(name, value);
    var t1 := DefineIntCorrected(t, name, required, defaultVal, help).1;
    var args := [prog, Join(name, value)][1..];
    assert args == [Join(name, value)];
    assert Occurrences(args[1..], name) == 0;
    ParseVerdict(t1, args, atoi);
    ParseThenGet(t1, [prog, Join(name, value)], atoi, name);
  }

  /**
   * With the define as intended, a required option that no argument names
   * makes the parse fail, whatever else the command line holds.
   */
  lemma RequiredOptionMustBeGiven(t: Table, name: string, defaultVal: int, help: Option<string>,
                                  argv: seq<string>, atoi: string -> int)
    requires name !in t
    ensures var t1 := DefineIntCorrected(t, name, true, defaultVal, help).1;
      Occurrences(if argv == [] then [] else argv[1..], name) == 0 ==> !Parse(t1, argv, atoi).1
  {
    var t1 := DefineIntCorrected(t, name, true, defaultVal, help).1;
    var args := if argv == [] then [] else argv[1..];
    if Parse(t1, argv, atoi).1 {
      ParseRecords(t1, args, atoi);
      assert t1[name].required && t1[name].found == 0;
    }
  }
}
