/** `CommandConfigImpl`: the arguments and bound options handed to a command. Its three
    lookups walk the keys of the bound-options map in the map's iteration order and
    answer from the first key whose name matches. `getOptionValue` answers with the
    matched option's declared default, not with the value bound from the token. */
module ImplCommandConfig {
  import opened JavaLang
  import opened OptionBinding

  /** `order` is the hash map's key iteration order, which the source does not fix: any
      enumeration of the keys, each once. */
  datatype CommandConfig = CommandConfig(arguments: seq<string>, options: map<Option, string>, order: seq<Option>)
  {
    ghost predicate Valid()
    {
      (forall o :: o in options <==> o in order)
      && (forall i, j :: 0 <= i < j < |order| ==> order[i] != order[j])
    }
  }

  /** The first option in `order` named `name`; `equals(null)` is false, so a null name
      finds nothing. */
  function FirstNamed(order: seq<Option>, name: Nullable<string>): (r: Nullable<Option>)
    ensures r.NonNull? ==> name.NonNull? && r.value in order && r.value.name == name.value
    ensures r.NonNull? ==> exists i :: 0 <= i < |order| && order[i] == r.value
                                      && forall j :: 0 <= j < i ==> order[j].name != name.value
    ensures r.Null? ==> name.Null? || forall o :: o in order ==> o.name != name.value
    decreases |order|
  {
    if name.Null? || |order| == 0 then Null
    else if order[0].name == name.value then NonNull(order[0])
    else
      var r := FirstNamed(order[1..], name);
      if r.NonNull? then
        ghost var i :| 0 <= i < |order[1..]| && order[1..][i] == r.value
                      && forall j :: 0 <= j < i ==> order[1..][j].name != name.value;
        assert order[i + 1] == r.value;
        r
      else r
  }

  /** `getOption`. */
  function GetOption(c: CommandConfig, name: Nullable<string>): (r: Nullable<Option>)
    requires c.Valid()
    ensures r.NonNull? ==> name.NonNull? && r.value in c.options && r.value.name == name.value
    ensures r.Null? <==> name.Null? || forall o :: o in c.options ==> o.name != name.value
  {
    FirstNamed(c.order, name)
  }

  /** `isOptionSet`: a search of its own, with the same loop as `getOption`. */
  predicate IsOptionSet(c: CommandConfig, name: Nullable<string>)
  {
    exists i :: 0 <= i < |c.order| && name.NonNull? && c.order[i].name == name.value
  }

  /** `getOptionValue`: the matched option's declared default, or null. */
  function GetOptionValue(c: CommandConfig, name: Nullable<string>): (r: Nullable<string>)
    requires c.Valid()
    ensures r.NonNull? <==> IsOptionSet(c, name)
    ensures r.NonNull? ==> exists o :: o in c.options && o.name == name.value && r.value == o.value
  {
    var o := GetOption(c, name);
    if o.Null? then Null
    else
      assert c.order[IndexIn(c.order, o.value)] == o.value;
      NonNull(o.value.value)
  }

  function IndexIn(order: seq<Option>, o: Option): (i: nat)
    requires o in order
    ensures i < |order| && order[i] == o
  {
    if order[0] == o then 0 else 1 + IndexIn(order[1..], o)
  }

  // ------------------------------------------------------------------------ lemmas

  /** `isOptionSet(n)` holds exactly when `getOption(n)` is not null, and exactly when
      some bound option has that name, case-sensitively. */
  lemma OptionSetIffFound(c: CommandConfig, name: Nullable<string>)
    requires c.Valid()
    ensures IsOptionSet(c, name) <==> GetOption(c, name).NonNull?
    ensures IsOptionSet(c, name) <==> name.NonNull? && exists o :: o in c.options && o.name == name.value
  {
    if IsOptionSet(c, name) {
      var i :| 0 <= i < |c.order| && name.NonNull? && c.order[i].name == name.value;
      assert c.order[i] in c.options;
    }
    if GetOption(c, name).NonNull? {
      var o := GetOption(c, name).value;
      assert c.order[IndexIn(c.order, o)] == o;
    }
  }

  /** The value bound from the token plays no part in `getOptionValue`: two configs
      with the same keys in the same order answer alike whatever values they bind. */
  lemma BoundValueIgnored(c: CommandConfig, d: CommandConfig, name: Nullable<string>)
    requires c.Valid() && d.Valid()
    requires c.order == d.order
    ensures GetOptionValue(c, name) == GetOptionValue(d, name)
  {
  }

  /** When at most one bound option carries the name, the answer does not depend on the
      iteration order. */
  lemma UniqueNameOrderFree(c: CommandConfig, d: CommandConfig, o: Option)
    requires c.Valid() && d.Valid() && c.options.Keys == d.options.Keys
    requires o in c.options
    requires forall p :: p in c.options && p.name == o.name ==> p == o
    ensures GetOption(c, NonNull(o.name)) == GetOption(d, NonNull(o.name)) == NonNull(o)
    ensures GetOptionValue(c, NonNull(o.name)) == NonNull(o.value)
  {
  }

  /** Two options named "engine" both bound, as the webapp command declares: the
      iteration order decides which default `getOptionValue` answers with. */
  lemma OrderDecidesDuplicate()
    ensures var e1 := Option("engine", 'e', "", true, false, "");
            var e2 := Option("engine", 'E', "*", true, false, "");
            var c := CommandConfig([], map[e1 := "x", e2 := "x"], [e1, e2]);
            var d := CommandConfig([], map[e1 := "x", e2 := "x"], [e2, e1]);
            c.Valid() && d.Valid()
            && GetOptionValue(c, NonNull("engine")) == NonNull("")
            && GetOptionValue(d, NonNull("engine")) == NonNull("*")
  {
    var e1 := Option("engine", 'e', "", true, false, "");
    var e2 := Option("engine", 'E', "*", true, false, "");
    assert e1 != e2;
  }
}
