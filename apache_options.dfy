/** The `setOption` rule of the `org.apache` revision's `CommandLine` and `Environment`:
    the leading dashes are stripped, and the rest is stored in a sorted map either as
    "key:value" split at ':' or as a switch with the value "true". The two classes
    differ only in the dashes they strip. */
module ApacheOptions {
  import opened JavaLang

  /** Which class stores the option: `CommandLine` strips "--" or else "-";
      `Environment` strips only "--", so "-x" keeps its dash in the key. */
  datatype Stripping = LineStripping | EnvironmentStripping

  function Unprefixed(s: Stripping, option: string): (r: string)
    ensures StartsWith(option, "--") ==> r == option[2..]
    ensures !StartsWith(option, "--") && StartsWith(option, "-") ==> r == (if s == LineStripping then option[1..] else option)
    ensures !StartsWith(option, "-") ==> r == option
  {
    if StartsWith(option, "--") then option[2..]
    else if s == LineStripping && StartsWith(option, "-") then option[1..]
    else option
  }

  /** What `put` receives for a stripped option: with a ':', the first two fields of
      `split("\\:")` (which drops trailing empty fields, so reading the second one can
      fail with an `ArrayIndexOutOfBoundsException` whose message is the index);
      without one, the option itself and "true". */
  function OptionEntry(option: string): Result<(string, string)>
  {
    if IndexOf(option, ':') == -1 then Ok((option, "true"))
    else
      var pair := Split(option, ':');
      if |pair| < 2 then Throw(IndexOutOfBounds, if |pair| == 0 then "0" else "1")
      else Ok((pair[0], pair[1]))
  }

  function Entry(s: Stripping, token: string): Result<(string, string)>
  {
    OptionEntry(Unprefixed(s, token))
  }

  /** The option map after `setOption` of each token in turn, starting from `options`,
      where `entry` says what one token stores; the first token that cannot be split
      escapes. */
  function StoredBy(entry: string -> Result<(string, string)>, options: map<string, string>, tokens: seq<string>)
    : Result<map<string, string>>
  {
    if tokens == [] then Ok(options)
    else
      var prev := StoredBy(entry, options, tokens[..|tokens| - 1]);
      if prev.Err? then prev
      else
        var e := entry(tokens[|tokens| - 1]);
        if e.Err? then Err(e.error) else Ok(prev.value[e.value.0 := e.value.1])
  }

  function Stored(s: Stripping, options: map<string, string>, tokens: seq<string>): Result<map<string, string>>
  {
    StoredBy(t => Entry(s, t), options, tokens)
  }

  // ------------------------------------------------------------ splitting one option

  predicate AllEmpty(ps: seq<string>)
  {
    forall k :: 0 <= k < |ps| ==> ps[k] == ""
  }

  predicate AllSep(t: string, sep: char)
  {
    forall j :: 0 <= j < |t| ==> t[j] == sep
  }

  lemma AllEmptyCons(rest: seq<string>)
    ensures AllEmpty([""] + rest) <==> AllEmpty(rest)
  {
    assert forall k :: 0 <= k < |rest| ==> rest[k] == ([""] + rest)[k + 1];
  }

  lemma AllSepCons(t: string, sep: char)
    requires |t| > 0 && t[0] == sep
    ensures AllSep(t, sep) <==> AllSep(t[1..], sep)
  {
    assert forall j :: 0 <= j < |t[1..]| ==> t[1..][j] == t[j + 1];
    assert forall j :: 0 < j < |t| ==> t[j] == t[1..][j - 1];
  }

  /** Cutting a string at `sep` gives only empty pieces exactly when the string is made
      of `sep` alone. */
  lemma {:induction false} EmptyPieces(t: string, sep: char)
    ensures AllEmpty(Pieces(t, sep)) <==> AllSep(t, sep)
    decreases |t|
  {
    var ps := Pieces(t, sep);
    var i := IndexOf(t, sep);
    if i > 0 {
      assert ps[0] == t[..i] && ps[0][0] == t[0] && t[0] != sep;
    } else if i == 0 {
      assert ps == [""] + Pieces(t[1..], sep);
      EmptyPieces(t[1..], sep);
      AllEmptyCons(Pieces(t[1..], sep));
      AllSepCons(t, sep);
    } else if |t| > 0 {
      assert sep !in t && ps == [t] && ps[0] != "";
      assert t[0] != sep by {
        assert t[0] in t;
      }
    } else {
      assert ps == [""];
    }
  }

  /** Dropping the trailing empty strings from a list of at least one leaves fewer than
      two exactly when everything after the first is empty. */
  lemma DropToShort(a: string, b: seq<string>)
    ensures |DropTrailingEmpty([a] + b)| < 2 <==> AllEmpty(b)
  {
    var ps := [a] + b;
    DropTrailingEmptyShape(ps);
    var r := DropTrailingEmpty(ps);
    assert forall k :: 0 <= k < |b| ==> b[k] == ps[k + 1];
    if |r| >= 2 {
      assert ps[|r| - 1] == r[|r| - 1];
    }
  }

  /** The text after position `i` is all `sep` exactly when every later character is. */
  lemma AllAfter(s: string, i: nat, t: string, sep: char)
    requires i < |s| && t == s[i + 1..]
    ensures AllSep(t, sep) <==> (forall j :: i < j < |s| ==> s[j] == sep)
  {
    assert forall j :: 0 <= j < |t| ==> t[j] == s[i + 1 + j];
    assert forall j :: i < j < |s| ==> s[j] == t[j - i - 1];
  }

  /** Cutting at the first `sep` gives the text before it, then the pieces of the rest. */
  lemma PiecesAt(s: string, sep: char)
    requires sep in s
    ensures var i := IndexOf(s, sep);
            0 <= i < |s| && Pieces(s, sep) == [s[..i]] + Pieces(s[i + 1..], sep)
  {
  }

  /** The first piece runs up to the first `sep` or the end. */
  lemma FirstPiece(t: string, sep: char)
    ensures var p := Pieces(t, sep)[0];
            StartsWith(t, p) && sep !in p && (|t| == |p| || t[|p|] == sep)
  {
  }

  /** Splitting fails exactly when a ':' is followed by nothing but ':' characters:
      "name:", "name::" and ":" fail, ":x" and "a::b" do not. */
  lemma EntryFails(option: string)
    ensures OptionEntry(option).Err? <==>
              ':' in option && forall j :: IndexOf(option, ':') < j < |option| ==> option[j] == ':'
    ensures OptionEntry(option).Err? ==> OptionEntry(option).error.kind == IndexOutOfBounds
  {
    if ':' in option {
      var i := IndexOf(option, ':');
      var t := option[i + 1..];
      PiecesAt(option, ':');
      DropToShort(option[..i], Pieces(t, ':'));
      EmptyPieces(t, ':');
      AllAfter(option, i, t, ':');
    }
  }

  /** Two fields out of a split at ':' are the text before the first ':' and the first
      piece after it. */
  lemma SplitPair(option: string)
    requires ':' in option && |Split(option, ':')| >= 2
    ensures var i := IndexOf(option, ':');
            0 <= i < |option| && Split(option, ':')[0] == option[..i]
            && Split(option, ':')[1] == Pieces(option[i + 1..], ':')[0]
  {
    PiecesAt(option, ':');
    DropTrailingEmptyShape(Pieces(option, ':'));
  }

  /** A stored pair is the text before the first ':' and the text from there to the
      next ':' or the end; anything further is dropped. Without ':' the option is a
      switch set to "true". */
  lemma EntryShape(option: string)
    ensures ':' !in option ==> OptionEntry(option) == Ok((option, "true"))
    ensures ':' in option && OptionEntry(option).Ok? ==>
              var (k, v) := OptionEntry(option).value;
              StartsWith(option, k + ":" + v) && ':' !in k && ':' !in v
              && (|option| == |k| + 1 + |v| || option[|k| + 1 + |v|] == ':')
  {
    if ':' in option && OptionEntry(option).Ok? {
      PairShape(option);
    }
  }

  /** The two fields of a split at ':' that has them, joined as in `EntryShape`. */
  lemma PairShape(option: string)
    requires ':' in option && |Split(option, ':')| >= 2
    ensures var k, v := Split(option, ':')[0], Split(option, ':')[1];
            StartsWith(option, k + ":" + v) && ':' !in k && ':' !in v
            && (|option| == |k| + 1 + |v| || option[|k| + 1 + |v|] == ':')
  {
    SplitPair(option);
    var i := IndexOf(option, ':');
    var t := option[i + 1..];
    FirstPiece(t, ':');
    FieldsShape(option, i, t, Pieces(t, ':')[0]);
  }

  lemma FieldsShape(option: string, i: nat, t: string, v: string)
    requires i < |option| && option[i] == ':' && ':' !in option[..i] && t == option[i + 1..]
    requires StartsWith(t, v) && ':' !in v && (|t| == |v| || t[|v|] == ':')
    ensures var k := option[..i];
            StartsWith(option, k + ":" + v) && (|option| == |k| + 1 + |v| || option[|k| + 1 + |v|] == ':')
  {
    assert option == option[..i] + ":" + t;
    Joined(option, option[..i], t, v, ':');
  }

  /** `k`, the separator and a prefix `v` of `t` that ends at a separator or at the end
      are a prefix of `k`, the separator and `t`, ending the same way. */
  lemma Joined(option: string, k: string, t: string, v: string, sep: char)
    requires option == k + [sep] + t && StartsWith(t, v) && (|t| == |v| || t[|v|] == sep)
    ensures StartsWith(option, k + [sep] + v)
    ensures |option| == |k| + 1 + |v| || option[|k| + 1 + |v|] == sep
  {
    assert option[..|k| + 1 + |v|] == k + [sep] + t[..|v|];
    if |t| > |v| {
      assert option[|k| + 1 + |v|] == t[|v|];
    }
  }

  /** Two separator-free fields that both start `s` and both end at a separator or at
      the end of `s` are the same field. */
  lemma FieldUnique(s: string, a: string, b: string, sep: char)
    requires sep !in a && sep !in b && StartsWith(s, a) && StartsWith(s, b)
    requires (|s| == |a| || s[|a|] == sep) && (|s| == |b| || s[|b|] == sep)
    ensures a == b
  {
    assert s[..|a|] == a && s[..|b|] == b;
  }

  /** The first separator of `k`, the separator and more, where `k` has none, is at `|k|`. */
  lemma FirstSep(option: string, k: string, sep: char)
    requires StartsWith(option, k + [sep]) && sep !in k
    ensures IndexOf(option, sep) == |k|
  {
    assert option[|k|] == sep && option[..|k|] == k;
  }

  /** A split at ':' keeps two fields when the first ':' is followed by another
      character. */
  lemma SplitKeepsPair(option: string, i: int)
    requires ':' in option && i == IndexOf(option, ':')
    requires i + 1 < |option| && option[i + 1] != ':'
    ensures |Split(option, ':')| >= 2
  {
    EntryFails(option);
    assert OptionEntry(option).Ok?;
  }

  /** Two fields joined by ':' are recovered from any text that starts with them and
      goes on with ':' or ends. */
  lemma PairFields(option: string, k: string, v: string, rest: string, k': string, v': string)
    requires ':' !in k && ':' !in v && (rest == "" || rest[0] == ':') && option == k + ":" + v + rest
    requires ':' !in k' && ':' !in v' && StartsWith(option, k' + ":" + v')
    requires |option| == |k'| + 1 + |v'| || option[|k'| + 1 + |v'|] == ':'
    ensures k' == k && v' == v
  {
    assert option[..|k'|] == k' && option[|k'|] == ':';
    FieldUnique(option, k, k', ':');
    var tail := option[|k| + 1..];
    assert tail == v + rest;
    assert StartsWith(tail, v') && (|tail| == |v'| || tail[|v'|] == ':') by {
      assert option[..|k| + 1 + |v'|] == k + ":" + v';
    }
    FieldUnique(tail, v, v', ':');
  }

  /** "key:value" stores key and value, whatever follows a further ':'. */
  lemma EntryOfPair(k: string, v: string, rest: string)
    requires ':' !in k && ':' !in v && v != ""
    requires rest == "" || rest[0] == ':'
    ensures OptionEntry(k + ":" + v + rest) == Ok((k, v))
  {
    var option := k + ":" + v + rest;
    assert option[..|k| + 1] == k + ":";
    FirstSep(option, k, ':');
    assert option[|k| + 1] == v[0];
    SplitKeepsPair(option, |k|);
    PairShape(option);
    PairFields(option, k, v, rest, Split(option, ':')[0], Split(option, ':')[1]);
  }

  /** "name:" with an empty value cannot be stored: `pair[1]` does not exist (and for
      ":" not even `pair[0]`). */
  lemma TrailingColonThrows(name: string)
    requires ':' !in name
    ensures OptionEntry(name + ":") == Throw(IndexOutOfBounds, if name == "" then "0" else "1")
  {
    var option := name + ":";
    assert option[|name|] == ':' && option[..|name|] == name;
    PiecesAt(option, ':');
    var i := IndexOf(option, ':');
    assert i == |name|;
    assert option[i + 1..] == "";
    assert Pieces(option, ':') == [name, ""];
    assert DropTrailingEmpty([name, ""]) == DropTrailingEmpty([name]) by {
      assert [name, ""][..1] == [name];
    }
    assert DropTrailingEmpty([name]) == if name == "" then [] else [name] by {
      assert [name][..0] == [];
    }
  }

  /** A command line strips "-" and "--" alike; the environment keeps the single dash. */
  lemma DashesStripped(name: string)
    requires !StartsWith(name, "-")
    ensures Unprefixed(LineStripping, "-" + name) == Unprefixed(LineStripping, "--" + name) == name
    ensures Unprefixed(EnvironmentStripping, "--" + name) == name
    ensures Unprefixed(EnvironmentStripping, "-" + name) == "-" + name
  {
    assert ("--" + name)[..2] == "--" && ("--" + name)[2..] == name;
    assert ("-" + name)[..1] == "-" && ("-" + name)[1..] == name;
    if |name| > 0 {
      assert ("-" + name)[..2] == [('-'), name[0]];
    }
  }

  /** A dashed switch without ':' is stored as its name and "true"; only the
      environment keeps a single leading dash in the name. */
  lemma SwitchStored(name: string)
    requires ':' !in name && !StartsWith(name, "-")
    ensures Entry(LineStripping, "-" + name) == Entry(LineStripping, "--" + name) == Ok((name, "true"))
    ensures Entry(EnvironmentStripping, "--" + name) == Ok((name, "true"))
    ensures Entry(EnvironmentStripping, "-" + name) == Ok(("-" + name, "true"))
  {
    DashesStripped(name);
    EntryShape(name);
    assert ':' !in "-" + name by {
      assert forall j :: 0 < j < |"-" + name| ==> ("-" + name)[j] == name[j - 1];
    }
    EntryShape("-" + name);
  }

  /** On a command line, "-name" and "--name" both store `name` as "true". */
  lemma SwitchesStored(options: map<string, string>, name: string)
    requires ':' !in name && !StartsWith(name, "-")
    ensures Stored(LineStripping, options, ["-" + name]) == Stored(LineStripping, options, ["--" + name])
            == Ok(options[name := "true"])
  {
    SwitchStored(name);
    StoredOne(LineStripping, options, "-" + name);
    StoredOne(LineStripping, options, "--" + name);
  }

  /** A dashed "name:value" token stores `value` under `name` on a command line. */
  lemma PairStored(options: map<string, string>, name: string, value: string)
    requires ':' !in name && ':' !in value && value != "" && !StartsWith(name, "-")
    ensures Stored(LineStripping, options, ["-" + name + ":" + value]) == Ok(options[name := value])
  {
    var token := "-" + name + ":" + value;
    assert token[..1] == "-" && token[1..] == name + ":" + value + "";
    if |token| >= 2 {
      assert token[..2] == "-" + [token[1]];
      assert token[1] == (name + ":")[0];
    }
    EntryOfPair(name, value, "");
    StoredOne(LineStripping, options, token);
  }

  // ------------------------------------------------------------ a run of setOption

  /** One `setOption`: the pair is stored, or the token's failure escapes. */
  lemma StoredOne(s: Stripping, options: map<string, string>, t: string)
    ensures var e := Entry(s, t);
            Stored(s, options, [t]) == if e.Err? then Err(e.error) else Ok(options[e.value.0 := e.value.1])
  {
    StoredByOne(x => Entry(s, x), options, t);
  }

  lemma StoredByOne(entry: string -> Result<(string, string)>, options: map<string, string>, t: string)
    ensures var e := entry(t);
            StoredBy(entry, options, [t]) == if e.Err? then Err(e.error) else Ok(options[e.value.0 := e.value.1])
  {
    assert [t][..0] == [];
  }

  /** The run stops at the first token that cannot be split, and fails exactly then. */
  lemma {:induction false} StoredFails(entry: string -> Result<(string, string)>, options: map<string, string>, tokens: seq<string>)
    ensures StoredBy(entry, options, tokens).Ok? <==> forall j :: 0 <= j < |tokens| ==> entry(tokens[j]).Ok?
    ensures StoredBy(entry, options, tokens).Err? ==>
              exists j :: 0 <= j < |tokens| && entry(tokens[j]).Err?
                && StoredBy(entry, options, tokens).error == entry(tokens[j]).error
                && forall i :: 0 <= i < j ==> entry(tokens[i]).Ok?
    decreases |tokens|
  {
    if tokens != [] {
      var init := tokens[..|tokens| - 1];
      StoredFails(entry, options, init);
      assert forall j :: 0 <= j < |init| ==> init[j] == tokens[j];
    }
  }

  /** A key is present after the run exactly when it was present before or some token
      stored it; the value is that of the last token storing it, or the old one. */
  lemma {:induction false} LastWriteWins(entry: string -> Result<(string, string)>, options: map<string, string>,
                                         tokens: seq<string>, key: string)
    requires StoredBy(entry, options, tokens).Ok?
    ensures var r := StoredBy(entry, options, tokens).value;
            (key in r <==> key in options || exists j :: 0 <= j < |tokens| && entry(tokens[j]).Ok? && entry(tokens[j]).value.0 == key)
            && (forall j :: 0 <= j < |tokens| && entry(tokens[j]).Ok? && entry(tokens[j]).value.0 == key ==>
                  (forall i :: j < i < |tokens| ==> entry(tokens[i]).Ok? && entry(tokens[i]).value.0 != key) ==>
                  r[key] == entry(tokens[j]).value.1)
            && ((forall j :: 0 <= j < |tokens| ==> entry(tokens[j]).Ok? && entry(tokens[j]).value.0 != key) && key in options ==>
                  r[key] == options[key])
    decreases |tokens|
  {
    if tokens != [] {
      var init := tokens[..|tokens| - 1];
      LastWriteWins(entry, options, init, key);
      assert forall j :: 0 <= j < |init| ==> init[j] == tokens[j];
    }
  }

  /** A run over `a + b` is the run over `a` continued from its map over `b`; a
      failure in `a` is final. */
  lemma {:induction false} StoredByAppend(entry: string -> Result<(string, string)>, options: map<string, string>,
                                          a: seq<string>, b: seq<string>)
    ensures var first := StoredBy(entry, options, a);
            StoredBy(entry, options, a + b) == if first.Err? then first else StoredBy(entry, first.value, b)
    decreases |b|
  {
    if b == [] {
      assert a + b == a;
    } else {
      var init := b[..|b| - 1];
      StoredByAppend(entry, options, a, init);
      assert (a + b)[..|a + b| - 1] == a + init;
      assert (a + b)[|a + b| - 1] == b[|b| - 1];
    }
  }

  lemma StoredAppend(s: Stripping, options: map<string, string>, a: seq<string>, b: seq<string>)
    ensures var first := Stored(s, options, a);
            Stored(s, options, a + b) == if first.Err? then first else Stored(s, first.value, b)
  {
    StoredByAppend(x => Entry(s, x), options, a, b);
  }

  /** Setting the same option twice in a row is the same as setting it once. */
  lemma SetTwice(entry: string -> Result<(string, string)>, options: map<string, string>, tokens: seq<string>, t: string)
    ensures StoredBy(entry, options, tokens + [t, t]) == StoredBy(entry, options, tokens + [t])
  {
    var once, twice := tokens + [t], tokens + [t, t];
    assert twice[..|twice| - 1] == once && twice[|twice| - 1] == t;
    assert once[..|once| - 1] == tokens && once[|once| - 1] == t;
    var prev, e := StoredBy(entry, options, tokens), entry(t);
    if prev.Ok? && e.Ok? {
      var m := prev.value[e.value.0 := e.value.1];
      assert StoredBy(entry, options, once) == Ok(m);
      assert m[e.value.0 := e.value.1] == m;
    }
  }
}
