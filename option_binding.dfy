/** The option binder shared by both revisions of `activeOptions`: each declared option
    of a command is matched against the raw option tokens of a command line. The
    specification is `Bind`; `Expected` and `Fails` describe its result
    independently, and the lemmas at the end connect the two. */
module OptionBinding {
  import opened JavaLang

  /** An `@Option` annotation. Annotations compare by value, so two declarations with
      the same fields are the same key of the binder's map. */
  datatype Option = Option(
    name: string,
    single: char,
    value: string,
    setter: bool,
    required: bool,
    extended: string)

  /** The two revisions differ only in the message of the empty-setter exception. */
  datatype Revision = Impl | Legacy

  /** A token selects an option when it starts with "--" + name or with "-" + single. */
  predicate Matches(o: Option, token: string)
  {
    StartsWith(token, "--" + o.name) || StartsWith(token, ['-', o.single])
  }

  /** The value a matching token gives: the text after its first ':', else the
      option's declared default. */
  function TokenValue(o: Option, token: string): (v: string)
    ensures ':' !in token ==> v == o.value
    ensures ':' in token ==>
      |v| < |token| && token[|token| - |v| - 1] == ':' && ':' !in token[..|token| - |v| - 1]
      && v == token[|token| - |v|..]
  {
    var i := IndexOf(token, ':');
    if i > -1 then token[i + 1..] else o.value
  }

  /** The position of the first token that selects `o`. */
  function FirstMatch(o: Option, tokens: seq<string>): (r: Nullable<nat>)
    ensures r.NonNull? ==> r.value < |tokens| && Matches(o, tokens[r.value])
    ensures r.NonNull? ==> forall j :: 0 <= j < r.value ==> !Matches(o, tokens[j])
    ensures r.Null? ==> forall j :: 0 <= j < |tokens| ==> !Matches(o, tokens[j])
  {
    if |tokens| == 0 then Null
    else if Matches(o, tokens[0]) then NonNull(0)
    else
      var r := FirstMatch(o, tokens[1..]);
      if r.Null? then Null else NonNull(r.value + 1)
  }

  predicate Matched(o: Option, tokens: seq<string>)
  {
    FirstMatch(o, tokens).NonNull?
  }

  /** The value bound to `o`: the one given by the first token that selects it. */
  function BoundValue(o: Option, tokens: seq<string>): string
    requires Matched(o, tokens)
  {
    TokenValue(o, tokens[FirstMatch(o, tokens).value])
  }

  function SetterError(rev: Revision, o: Option): Exception
  {
    match rev
    case Impl => Exception(IllegalArgument, NonNull(Resource("tomcat.cli.requiredOptionNotSet", [o.name])))
    case Legacy => Exception(IllegalArgument, NonNull(Text("Option " + o.name + " must have value")))
  }

  function RequiredError(o: Option): Exception
  {
    Exception(IllegalArgument, NonNull(Text("Option " + o.extended + " is required")))
  }

  /** One pass of the outer loop: bind `o` from its first selecting token, then check
      that a required option is bound. */
  function BindOne(rev: Revision, o: Option, tokens: seq<string>, acc: map<Option, string>): Result<map<Option, string>>
  {
    match FirstMatch(o, tokens)
    case NonNull(i) =>
      var v := TokenValue(o, tokens[i]);
      if o.setter && v == "" then Err(SetterError(rev, o))
      else Ok(acc[o := v])
    case Null =>
      if o.required && o !in acc then Err(RequiredError(o)) else Ok(acc)
  }

  /** The outer loop from option `viable[0]` on, with the map built so far. */
  function BindFrom(rev: Revision, viable: seq<Option>, tokens: seq<string>, acc: map<Option, string>): Result<map<Option, string>>
    decreases |viable|
  {
    if |viable| == 0 then Ok(acc)
    else
      var step := BindOne(rev, viable[0], tokens, acc);
      if step.Err? then step else BindFrom(rev, viable[1..], tokens, step.value)
  }

  /** `activeOptions(tokens, command)` for a command whose option list is `viable`. */
  function Bind(rev: Revision, viable: seq<Option>, tokens: seq<string>): Result<map<Option, string>>
  {
    BindFrom(rev, viable, tokens, map[])
  }

  // ------------------------------------------------------ independent description

  /** Why a single option rejects the command line, if it does. */
  predicate Fails(o: Option, tokens: seq<string>)
  {
    if Matched(o, tokens) then o.setter && BoundValue(o, tokens) == "" else o.required
  }

  function FailError(rev: Revision, o: Option, tokens: seq<string>): Exception
  {
    if Matched(o, tokens) then SetterError(rev, o) else RequiredError(o)
  }

  /** The successful result: every declared option some token selects, with its value. */
  function Expected(viable: seq<Option>, tokens: seq<string>): map<Option, string>
  {
    map o | o in viable && Matched(o, tokens) :: BoundValue(o, tokens)
  }

  /** The accumulated map only ever holds options some token selects, with their values. */
  predicate Consistent(acc: map<Option, string>, tokens: seq<string>)
  {
    forall o :: o in acc ==> Matched(o, tokens) && acc[o] == BoundValue(o, tokens)
  }

  lemma ExpectedCons(viable: seq<Option>, tokens: seq<string>)
    requires |viable| > 0
    ensures Expected(viable, tokens) ==
      if Matched(viable[0], tokens) then Expected(viable[1..], tokens)[viable[0] := BoundValue(viable[0], tokens)]
      else Expected(viable[1..], tokens)
  {
    var o := viable[0];
    var e := Expected(viable, tokens);
    var rest := Expected(viable[1..], tokens);
    var want := if Matched(o, tokens) then rest[o := BoundValue(o, tokens)] else rest;
    assert viable == [o] + viable[1..];
    forall p ensures (p in e <==> p in want) && (p in e ==> e[p] == want[p]) {
      assert p in viable <==> p == o || p in viable[1..];
    }
    assert e == want;
  }

  lemma UpdateUnion(acc: map<Option, string>, e: map<Option, string>, o: Option, v: string)
    requires o in e ==> e[o] == v
    ensures acc[o := v] + e == acc + e[o := v]
  {
  }

  lemma {:induction false} BindFromOk(rev: Revision, viable: seq<Option>, tokens: seq<string>, acc: map<Option, string>)
    requires Consistent(acc, tokens)
    requires forall k :: 0 <= k < |viable| ==> !Fails(viable[k], tokens)
    ensures BindFrom(rev, viable, tokens, acc) == Ok(acc + Expected(viable, tokens))
    decreases |viable|
  {
    if |viable| == 0 {
      assert Expected(viable, tokens) == map[];
      assert acc + map[] == acc;
    } else {
      var o := viable[0];
      assert !Fails(o, tokens);
      assert forall k :: 0 <= k < |viable[1..]| ==> !Fails(viable[1..][k], tokens) by {
        forall k | 0 <= k < |viable[1..]| ensures !Fails(viable[1..][k], tokens) {
          assert viable[1..][k] == viable[k + 1];
        }
      }
      var rest := Expected(viable[1..], tokens);
      ExpectedCons(viable, tokens);
      if Matched(o, tokens) {
        var v := BoundValue(o, tokens);
        assert BindOne(rev, o, tokens, acc) == Ok(acc[o := v]);
        BindFromOk(rev, viable[1..], tokens, acc[o := v]);
        UpdateUnion(acc, rest, o, v);
      } else {
        assert BindOne(rev, o, tokens, acc) == Ok(acc);
        BindFromOk(rev, viable[1..], tokens, acc);
      }
    }
  }

  lemma {:induction false} BindFromErr(rev: Revision, viable: seq<Option>, tokens: seq<string>, acc: map<Option, string>, k: nat)
    requires Consistent(acc, tokens)
    requires k < |viable| && Fails(viable[k], tokens)
    requires forall j :: 0 <= j < k ==> !Fails(viable[j], tokens)
    ensures BindFrom(rev, viable, tokens, acc) == Err(FailError(rev, viable[k], tokens))
    decreases |viable|
  {
    var o := viable[0];
    if k == 0 {
      if !Matched(o, tokens) {
        assert o !in acc;
      }
    } else {
      assert !Fails(o, tokens);
      var next := if Matched(o, tokens) then acc[o := BoundValue(o, tokens)] else acc;
      assert BindOne(rev, o, tokens, acc) == Ok(next);
      BindFromErr(rev, viable[1..], tokens, next, k - 1);
    }
  }

  /** When no declared option rejects the tokens, the binder returns exactly the
      options some token selects, each with the value after the first ':' of its
      first selecting token or its declared default. */
  lemma BindSucceeds(rev: Revision, viable: seq<Option>, tokens: seq<string>)
    requires forall k :: 0 <= k < |viable| ==> !Fails(viable[k], tokens)
    ensures Bind(rev, viable, tokens) == Ok(Expected(viable, tokens))
  {
    BindFromOk(rev, viable, tokens, map[]);
    assert map[] + Expected(viable, tokens) == Expected(viable, tokens);
  }

  /** Options are checked in declaration order: the first one that rejects the tokens
      decides the exception. */
  lemma BindFails(rev: Revision, viable: seq<Option>, tokens: seq<string>, k: nat)
    requires k < |viable| && Fails(viable[k], tokens)
    requires forall j :: 0 <= j < k ==> !Fails(viable[j], tokens)
    ensures Bind(rev, viable, tokens) == Err(FailError(rev, viable[k], tokens))
  {
    BindFromErr(rev, viable, tokens, map[], k);
  }

  /** Every result is one of the two above: bind is an error exactly when some option
      rejects the tokens. */
  lemma BindCases(rev: Revision, viable: seq<Option>, tokens: seq<string>)
    ensures Bind(rev, viable, tokens).Ok? <==> forall k :: 0 <= k < |viable| ==> !Fails(viable[k], tokens)
    ensures Bind(rev, viable, tokens).Ok? ==> Bind(rev, viable, tokens).value == Expected(viable, tokens)
  {
    if forall k :: 0 <= k < |viable| ==> !Fails(viable[k], tokens) {
      BindSucceeds(rev, viable, tokens);
    } else {
      var k := FirstFailing(viable, tokens);
      BindFails(rev, viable, tokens, k);
    }
  }

  function FirstFailing(viable: seq<Option>, tokens: seq<string>): (k: nat)
    requires exists k :: 0 <= k < |viable| && Fails(viable[k], tokens)
    ensures k < |viable| && Fails(viable[k], tokens)
    ensures forall j :: 0 <= j < k ==> !Fails(viable[j], tokens)
  {
    if Fails(viable[0], tokens) then 0
    else
      assert exists k :: 0 <= k < |viable[1..]| && Fails(viable[1..][k], tokens) by {
        var k :| 0 <= k < |viable| && Fails(viable[k], tokens);
        assert viable[1..][k - 1] == viable[k];
      }
      1 + FirstFailing(viable[1..], tokens)
  }

  // ------------------------------------------------------------ consequences

  /** Keys of a successful result are declared options; values come from the first
      selecting token. */
  lemma BoundKeys(rev: Revision, viable: seq<Option>, tokens: seq<string>)
    requires Bind(rev, viable, tokens).Ok?
    ensures forall o :: o in Bind(rev, viable, tokens).value <==> o in viable && Matched(o, tokens)
    ensures forall o :: o in Bind(rev, viable, tokens).value ==> Bind(rev, viable, tokens).value[o] == BoundValue(o, tokens)
  {
    BindCases(rev, viable, tokens);
  }

  /** A required option no token selects is an error, even if it declares a default. */
  lemma RequiredMissing(rev: Revision, viable: seq<Option>, tokens: seq<string>, o: Option)
    requires o in viable && o.required && o.value != ""
    requires forall j :: 0 <= j < |tokens| ==> !Matches(o, tokens[j])
    ensures Bind(rev, viable, tokens).Err?
  {
    var k :| 0 <= k < |viable| && viable[k] == o;
    BindCases(rev, viable, tokens);
  }

  /** A setter option whose first selecting token carries an empty value is an error. */
  lemma EmptySetter(rev: Revision, viable: seq<Option>, tokens: seq<string>, i: nat)
    requires |viable| > 0 && viable[0].setter && ':' !in viable[0].name
    requires i < |tokens| && tokens[i] == "--" + viable[0].name + ":"
    requires forall j :: 0 <= j < i ==> !Matches(viable[0], tokens[j])
    ensures Bind(rev, viable, tokens) == Err(SetterError(rev, viable[0]))
  {
    var o := viable[0];
    var t := tokens[i];
    assert t[..|"--" + o.name|] == "--" + o.name;
    assert FirstMatch(o, tokens) == NonNull(i);
    assert forall k :: 0 <= k < |t| - 1 ==> t[k] != ':' by {
      forall k | 0 <= k < |t| - 1 ensures t[k] != ':' {
        if k >= 2 { assert t[k] == o.name[k - 2]; }
      }
    }
    assert IndexOf(t, ':') == |t| - 1;
    BindFails(rev, viable, tokens, 0);
  }

  /** Tokens that select no declared option are ignored. */
  lemma UnmatchedTokenIgnored(rev: Revision, viable: seq<Option>, a: seq<string>, t: string, b: seq<string>)
    requires forall o :: o in viable ==> !Matches(o, t)
    ensures Bind(rev, viable, a + [t] + b) == Bind(rev, viable, a + b)
  {
    forall o | o in viable
      ensures Matched(o, a + [t] + b) == Matched(o, a + b)
      ensures Matched(o, a + b) ==> BoundValue(o, a + [t] + b) == BoundValue(o, a + b)
    {
      SkipToken(o, a, t, b);
    }
    forall k | 0 <= k < |viable| ensures Fails(viable[k], a + [t] + b) == Fails(viable[k], a + b) {
      assert viable[k] in viable;
    }
    BindCases(rev, viable, a + [t] + b);
    BindCases(rev, viable, a + b);
    if Bind(rev, viable, a + b).Err? {
      var k := FirstFailing(viable, a + b);
      BindFails(rev, viable, a + [t] + b, k);
      BindFails(rev, viable, a + b, k);
      assert FailError(rev, viable[k], a + [t] + b) == FailError(rev, viable[k], a + b) by {
        assert viable[k] in viable;
      }
    } else {
      assert Expected(viable, a + [t] + b) == Expected(viable, a + b);
    }
  }

  lemma {:induction false} SkipToken(o: Option, a: seq<string>, t: string, b: seq<string>)
    requires !Matches(o, t)
    ensures Matched(o, a + [t] + b) == Matched(o, a + b)
    ensures Matched(o, a + b) ==> BoundValue(o, a + [t] + b) == BoundValue(o, a + b)
    decreases |a|
  {
    if |a| == 0 {
      assert a + [t] + b == [t] + b;
      assert ([t] + b)[1..] == b;
      assert a + b == b;
    } else {
      SkipToken(o, a[1..], t, b);
      assert (a + [t] + b)[1..] == a[1..] + [t] + b;
      assert (a + b)[1..] == a[1..] + b;
      assert (a + [t] + b)[0] == a[0] == (a + b)[0];
    }
  }

  /** Matching is a prefix test, so "--hostnameX" selects the option "hostname". */
  lemma PrefixSelects(o: Option)
    requires o.name == "hostname"
    ensures Matches(o, "--hostnameX")
  {
    assert "--hostnameX"[..|"--" + o.name|] == "--hostname";
  }

  /** Tokens are not consumed: one token binds every option sharing its trigger. */
  lemma SharedTrigger(rev: Revision, viable: seq<Option>, tokens: seq<string>, t: string, o: Option, p: Option)
    requires o in viable && p in viable && o != p
    requires o.single == p.single && !o.setter && !p.setter
    requires tokens == [t] && |t| >= 2 && t[0] == '-' && t[1] == o.single
    requires forall q :: q in viable ==> !Fails(q, tokens)
    ensures Bind(rev, viable, tokens).Ok?
    ensures o in Bind(rev, viable, tokens).value && p in Bind(rev, viable, tokens).value
    ensures Bind(rev, viable, tokens).value[o] == TokenValue(o, t)
    ensures Bind(rev, viable, tokens).value[p] == TokenValue(p, t)
  {
    assert t[..2] == ['-', o.single];
    assert Matches(o, t) && Matches(p, t);
    assert FirstMatch(o, tokens) == NonNull(0) && FirstMatch(p, tokens) == NonNull(0);
    forall k | 0 <= k < |viable| ensures !Fails(viable[k], tokens) {
      assert viable[k] in viable;
    }
    BindSucceeds(rev, viable, tokens);
  }
}
