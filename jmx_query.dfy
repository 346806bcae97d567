/** The remote reads of `commands.AbstractJMXCommand` that the host and webapp commands
    use: `query`, which sorts the names the server reports; `attribute`, which reports
    a failed read and answers null; and `invoke`. The server itself is an oracle. An
    object name is represented by its canonical string. */
module JmxQuery {
  import opened JavaLang

  // ------------------------------------------------------------ the remote side

  /** A value read from or returned by a managed bean: null, a string, an object name,
      an array, or anything else. */
  datatype Value = NullValue | Str(s: string) | Name(name: string) | Items(items: seq<Value>) | Other

  /** The answers of the remote side. `objectName` is `ObjectName.getInstance`: the
      canonical form of a pattern or a MalformedObjectNameException. `queryNames`
      answers the set of matching names, enumerated in the set's own order. */
  datatype Mbeans = Mbeans(
    objectName: string -> Result<string>,
    queryNames: string -> Result<seq<string>>,
    attribute: (string, string) -> Result<Value>,
    invoke: (string, string) -> Result<Value>)

  /** One call of `log(message, args)`. */
  datatype LogCall = LogCall(message: string, args: seq<string>)

  /** One call of `invoke(name, operation)`, with no parameters. */
  datatype Invocation = Invocation(target: string, operation: string)

  /** What a command's `execute` did: how it ended, what it logged, and what it invoked
      on the server, in order. */
  datatype Run = Run(result: Result<()>, logged: seq<LogCall>, invoked: seq<Invocation>)

  /** `String.valueOf(e.getMessage())`. */
  function MessageText(m: Nullable<Message>): string
  {
    match m
    case Null => "null"
    case NonNull(Text(t)) => t
    case NonNull(Resource(k, _)) => k
  }

  // ------------------------------------------------------------ ordering names

  /** `n` placed before the first name it does not come after. */
  function Insert(n: string, ns: seq<string>): seq<string>
  {
    if ns == [] then [n]
    else if NotAfter(n, ns[0]) then [n] + ns
    else [ns[0]] + Insert(n, ns[1..])
  }

  /** `Collections.sort` with the comparator `compareTo`: any sort gives this answer,
      since the order is total and antisymmetric (`SortedUnique`). */
  function Sorted(ns: seq<string>): seq<string>
  {
    if ns == [] then [] else Insert(ns[|ns| - 1], Sorted(ns[..|ns| - 1]))
  }

  lemma {:induction false} InsertPermutes(n: string, ns: seq<string>)
    ensures multiset(Insert(n, ns)) == multiset(ns) + multiset{n}
    decreases |ns|
  {
    if ns != [] && !NotAfter(n, ns[0]) {
      InsertPermutes(n, ns[1..]);
      assert ns == [ns[0]] + ns[1..];
    }
  }

  lemma {:induction false} InsertAscending(n: string, ns: seq<string>)
    requires Ascending(ns)
    ensures Ascending(Insert(n, ns))
    decreases |ns|
  {
    if ns == [] {
    } else if NotAfter(n, ns[0]) {
      var r := [n] + ns;
      forall i, j | 0 <= i < j < |r| ensures NotAfter(r[i], r[j]) {
        if i == 0 && j > 1 {
          NotAfterTransitive(n, ns[0], ns[j - 1]);
        }
      }
    } else {
      NotAfterTotal(n, ns[0]);
      InsertAscending(n, ns[1..]);
      InsertPermutes(n, ns[1..]);
      var t := Insert(n, ns[1..]);
      var r := [ns[0]] + t;
      forall i, j | 0 <= i < j < |r| ensures NotAfter(r[i], r[j]) {
        if i == 0 {
          assert r[j] == t[j - 1] && t[j - 1] in multiset(t);
          if r[j] != n {
            assert r[j] in multiset(ns[1..]);
            var k :| 0 <= k < |ns[1..]| && ns[1..][k] == r[j];
            assert ns[k + 1] == r[j];
          }
        }
      }
    }
  }

  /** `Sorted` is an ascending permutation of its input. */
  lemma {:induction false} SortedAscending(ns: seq<string>)
    ensures Ascending(Sorted(ns)) && multiset(Sorted(ns)) == multiset(ns)
    decreases |ns|
  {
    if ns != [] {
      var init := ns[..|ns| - 1];
      SortedAscending(init);
      InsertAscending(ns[|ns| - 1], Sorted(init));
      InsertPermutes(ns[|ns| - 1], Sorted(init));
      assert ns == init + [ns[|ns| - 1]];
    }
  }

  /** Two ascending arrangements of the same names start with the same name. */
  lemma SameLeast(a: seq<string>, b: seq<string>)
    requires Ascending(a) && Ascending(b) && multiset(a) == multiset(b) && a != []
    ensures b != [] && a[0] == b[0]
  {
    assert a[0] in multiset(b);
    var i :| 0 <= i < |b| && b[i] == a[0];
    assert b[0] in multiset(a);
    var j :| 0 <= j < |a| && a[j] == b[0];
    if a[0] != b[0] {
      assert NotAfter(b[0], b[i]) && NotAfter(a[0], a[j]);
      NotAfterAntisymmetric(a[0], b[0]);
    }
  }

  lemma TailMultiset(a: seq<string>)
    requires a != []
    ensures multiset(a[1..]) == multiset(a) - multiset{a[0]}
  {
    assert a == [a[0]] + a[1..];
  }

  /** Two ascending arrangements of the same names are the same list. */
  lemma {:induction false} SortedUnique(a: seq<string>, b: seq<string>)
    requires Ascending(a) && Ascending(b) && multiset(a) == multiset(b)
    ensures a == b
    decreases |a|
  {
    if a != [] {
      SameLeast(a, b);
      TailMultiset(a);
      TailMultiset(b);
      SortedUnique(a[1..], b[1..]);
    } else {
      assert |b| == |multiset(b)| == 0;
    }
  }

  // ------------------------------------------------------------ the reads

  /** `query(on, null, null)`: the names the server reports for the canonical name
      `on`, sorted by `compareTo`. */
  function Query(mb: Mbeans, on: string): Result<seq<string>>
  {
    var found := mb.queryNames(on);
    if found.Err? then Err(found.error) else Ok(Sorted(found.value))
  }

  /** The answer is the reported names in ascending order, whatever order the server's
      set enumerated them in. */
  lemma QueryOrder(mb: Mbeans, other: Mbeans, on: string)
    requires mb.queryNames(on).Ok? && other.queryNames(on).Ok?
    requires multiset(mb.queryNames(on).value) == multiset(other.queryNames(on).value)
    ensures Query(mb, on).Ok? && Ascending(Query(mb, on).value)
    ensures multiset(Query(mb, on).value) == multiset(mb.queryNames(on).value)
    ensures Query(mb, on) == Query(other, on)
  {
    SortedAscending(mb.queryNames(on).value);
    SortedAscending(other.queryNames(on).value);
    SortedUnique(Sorted(mb.queryNames(on).value), Sorted(other.queryNames(on).value));
  }

  /** What `attribute(name, attribute)` answers, with the log calls it made: a failed
      read is logged as "ERROR: " and its message, and answers null. */
  function Attribute(mb: Mbeans, name: string, attribute: string): (Value, seq<LogCall>)
  {
    var read := mb.attribute(name, attribute);
    if read.Ok? then (read.value, []) else (NullValue, [LogCall("ERROR: " + MessageText(read.error.message), [])])
  }

  /** A read either answers the server's value quietly or answers null after one log
      call. */
  lemma AttributeQuiet(mb: Mbeans, name: string, attribute: string)
    ensures var (v, logged) := Attribute(mb, name, attribute);
            (mb.attribute(name, attribute).Ok? ==> v == mb.attribute(name, attribute).value && logged == [])
            && (mb.attribute(name, attribute).Err? ==>
                  v == NullValue && |logged| == 1 && logged[0].message[..7] == "ERROR: ")
  {
  }
}
