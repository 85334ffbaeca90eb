/**
 * `option_parse_command_line` of simplehttp/options.c as a method on the
 * option table, which it updates in place: the loop over `argv` applies each
 * argument to its record, and the loop over the table checks the required
 * options. Both are proved to compute `OptionsModel.Parse`.
 */
module OptionParser {
  import opened Wrappers
  import M = OptionsModel

  class OptionTable {
    /** The hash table `options`, by option name. */
    var options: M.Table

    constructor (options: M.Table)
      ensures this.options == options
    {
      this.options := options;
    }

    /**
     * Parse `argv` (its first element is the program name) against the table.
     * `atoi` is the C library conversion, taken as a parameter.
     */
    method ParseCommandLine(argv: seq<string>, atoi: string -> int) returns (ok: bool)
      modifies this
      ensures (options, ok) == M.Parse(old(options), argv, atoi)
    {
      ghost var goal := M.Parse(options, argv, atoi);
      if argv == [] {
        ok := RequiredFound();
        return;
      }
      for i := 1 to |argv|
        invariant M.ParseFrom(options, argv[i..], atoi) == goal
      {
        assert argv[i..][1..] == argv[i + 1..];
        var accepted := ApplyArgument(argv[i], atoi);
        if !accepted {
          return false;
        }
      }
      ok := RequiredFound();
    }

    /**
     * The body of the parsing loop on one argument: check its format, split
     * it, look the name up and store the value as the option's type reads
     * it, counting it in `found`. A refused argument changes nothing.
     */
    method ApplyArgument(arg: string, atoi: string -> int) returns (accepted: bool)
      modifies this
      ensures accepted <==> M.ApplyArgument(old(options), arg, atoi).Some?
      ensures accepted ==> options == M.ApplyArgument(old(options), arg, atoi).value
      ensures !accepted ==> options == old(options)
    {
      var split := M.SplitArgument(arg);
      if split.None? {
        return false;
      }
      var (name, value) := split.value;
      if name !in options {
        return false;
      }
      var option := options[name];
      match option.optionType {
        case Str =>
          option := option.(valueStr := Some(value));
        case Bool =>
          var b := M.ParseBool(value);
          if b.None? {
            return false;
          }
          option := option.(valueInt := if b.value then 1 else 0);
        case Int =>
          option := option.(valueInt := atoi(value));
        case Float =>
      }
      options := options[name := option.(found := option.found + 1)];
      accepted := true;
    }

    /** The check after the loop: walk the table for a required option that was not found. */
    method RequiredFound() returns (ok: bool)
      ensures ok == M.AllRequiredFound(options)
    {
      var rest := options.Keys;
      while rest != {}
        invariant rest <= options.Keys
        invariant forall n :: n in options && n !in rest ==> !options[n].required || options[n].found > 0
        decreases rest
      {
        var n :| n in rest;
        if options[n].required && options[n].found == 0 {
          return false;
        }
        rest := rest - {n};
      }
      return true;
    }
  }
}
