/** The two `activeOptions` implementations. Each parser holds the registry's live
    command-to-options map (what `getOptions()` hands out), so commands registered after
    the parser was built are seen by it. */
module OptionParsers {
  import opened JavaLang
  import opened OptionBinding
  import opened CommandClasses
  import opened ImplCommandRegistry

  /** The nested labelled loop shared by both revisions: for each viable option in
      order, the first token that selects it gives its value; an empty setter value or
      an unbound required option throws on the spot. */
  method BindOptions(rev: Revision, viable: seq<Option>, tokens: seq<string>) returns (r: Result<map<Option, string>>)
    ensures r == Bind(rev, viable, tokens)
  {
    var active: map<Option, string> := map[];
    var i := 0;
    while i < |viable|
      invariant 0 <= i <= |viable|
      invariant BindFrom(rev, viable[i..], tokens, active) == Bind(rev, viable, tokens)
    {
      BindFromStep(rev, viable, i, tokens, active);
      var step := BindOption(rev, viable[i], tokens, active);
      if step.Err? {
        return step;
      }
      active := step.value;
      i := i + 1;
    }
    assert viable[i..] == [];
    r := Ok(active);
  }

  /** One pass of the outer loop: the labelled loop over the tokens, which stops at the
      first token selecting `o`, then the check that a required option is bound. */
  method BindOption(rev: Revision, o: Option, tokens: seq<string>, active: map<Option, string>)
    returns (r: Result<map<Option, string>>)
    ensures r == BindOne(rev, o, tokens, active)
  {
    var result := active;
    var j := 0;
    while j < |tokens|
      invariant 0 <= j <= |tokens| && result == active
      invariant forall k :: 0 <= k < j ==> !Matches(o, tokens[k])
    {
      var t := tokens[j];
      if Matches(o, t) {
        FirstMatchAt(o, tokens, j);
        var value := TokenValue(o, t);
        if o.setter && value == "" {
          return Err(SetterError(rev, o));
        }
        result := result[o := value];
        break;
      }
      j := j + 1;
    }
    if o.required && o !in result {
      return Err(RequiredError(o));
    }
    r := Ok(result);
  }

  lemma FirstMatchAt(o: Option, tokens: seq<string>, j: nat)
    requires j < |tokens| && Matches(o, tokens[j])
    requires forall k :: 0 <= k < j ==> !Matches(o, tokens[k])
    ensures FirstMatch(o, tokens) == NonNull(j)
  {
  }

  lemma BindFromStep(rev: Revision, viable: seq<Option>, i: nat, tokens: seq<string>, acc: map<Option, string>)
    requires i < |viable|
    ensures BindFrom(rev, viable[i..], tokens, acc)
            == (var step := BindOne(rev, viable[i], tokens, acc);
                if step.Err? then step else BindFrom(rev, viable[i + 1..], tokens, step.value))
  {
    assert viable[i..][1..] == viable[i + 1..];
  }

  /** `impl/OptionParserImpl`. */
  class OptionParserImpl {
    const registry: CommandRegistryImpl

    constructor (registry: CommandRegistryImpl)
      ensures this.registry == registry
    {
      this.registry := registry;
    }

    /** A command with no stored option list makes the loop dereference null. */
    method ActiveOptions(options: seq<string>, command: Command) returns (r: Result<map<Option, string>>)
      ensures command !in registry.commandOptions ==> r == Err(Exception(NullPointer, Null))
      ensures command in registry.commandOptions ==> r == Bind(Impl, registry.commandOptions[command], options)
    {
      if command !in registry.commandOptions {
        return Err(Exception(NullPointer, Null));
      }
      r := BindOptions(Impl, registry.commandOptions[command], options);
    }
  }

  /** The older `OptionParser`; its per-comparison debug line on standard output is not
      modelled. */
  class OptionParser {
    const registry: CommandRegistryImpl

    constructor (registry: CommandRegistryImpl)
      ensures this.registry == registry
    {
      this.registry := registry;
    }

    method ActiveOptions(options: seq<string>, command: Command) returns (r: Result<map<Option, string>>)
      ensures command !in registry.commandOptions ==> r == Err(Exception(NullPointer, Null))
      ensures command in registry.commandOptions ==> r == Bind(Legacy, registry.commandOptions[command], options)
    {
      if command !in registry.commandOptions {
        return Err(Exception(NullPointer, Null));
      }
      r := BindOptions(Legacy, registry.commandOptions[command], options);
    }
  }
}
