/**
  The UPDATE statements that carry buffered traffic into the users table
  (statistic/mysql/mysql.go, buildTrafficUpdate).

  A statement is a list of text fragments with placeholders and a flat list of arguments;
  the database binds the arguments to the placeholders from left to right.
*/
module TrafficUpdate {
  import opened Traffic
  import opened Seqs

  /** The hash that identifies a user: the text in the password column. */
  datatype Hash = Hash(text: string)

  datatype Entry = Entry(hash: Hash, delta: Delta)

  datatype Row = Row(
    hash: Hash,
    quota: int,
    download: int,
    upload: int,
    speedUp: int,
    speedDown: int,
    ipLimit: int)

  datatype Arg = Text(hash: Hash) | Number(n: int)

  /** The pieces of statement text the builder writes; WhenThen holds two placeholders. */
  datatype Fragment =
    | OneUser            // UPDATE .. SET upload=upload+?, download=download+? WHERE password=?;
    | SetUploadCase      // UPDATE .. SET upload=upload+CASE password
    | WhenThen           // WHEN ? THEN ?
    | ElseDownloadCase   // ELSE 0 END, download=download+CASE password
    | ElseWhereIn        // ELSE 0 END WHERE password IN (
    | Comma
    | Placeholder
    | Finish             // );

  // ---------- the builder ----------

  function CaseArgs(batch: seq<Entry>, d: Direction): seq<Arg> {
    if batch == [] then []
    else [Text(batch[0].hash), Number(batch[0].delta.At(d))] + CaseArgs(batch[1..], d)
  }

  function HashArgs(batch: seq<Entry>): seq<Arg> {
    if batch == [] then [] else [Text(batch[0].hash)] + HashArgs(batch[1..])
  }

  function Whens(n: nat): seq<Fragment> {
    seq(n, _ => WhenThen)
  }

  /** Placeholders separated by commas. */
  function Holes(n: nat): seq<Fragment> {
    if n == 0 then [] else if n == 1 then [Placeholder] else [Placeholder, Comma] + Holes(n - 1)
  }

  lemma {:induction false} CaseArgsAppend(batch: seq<Entry>, e: Entry, d: Direction)
    ensures CaseArgs(batch + [e], d) == CaseArgs(batch, d) + [Text(e.hash), Number(e.delta.At(d))]
    decreases |batch|
  {
    if batch != [] {
      assert (batch + [e])[1..] == batch[1..] + [e];
      CaseArgsAppend(batch[1..], e, d);
    } else {
      assert batch + [e] == [e] && [e][1..] == [];
    }
  }

  lemma {:induction false} HashArgsAppend(batch: seq<Entry>, e: Entry)
    ensures HashArgs(batch + [e]) == HashArgs(batch) + [Text(e.hash)]
    decreases |batch|
  {
    if batch != [] {
      assert (batch + [e])[1..] == batch[1..] + [e];
      HashArgsAppend(batch[1..], e);
    } else {
      assert batch + [e] == [e] && [e][1..] == [];
    }
  }

  lemma {:induction false} HolesAppend(n: nat)
    ensures Holes(n + 1) == if n == 0 then [Placeholder] else Holes(n) + [Comma, Placeholder]
  {
    if n > 1 {
      HolesAppend(n - 1);
    }
  }

  /** The whole statement the builder is meant to produce: 5n arguments for n users. */
  function Statement(batch: seq<Entry>): (seq<Fragment>, seq<Arg>) {
    if |batch| == 1 then
      ([OneUser], [Number(batch[0].delta.recv), Number(batch[0].delta.sent), Text(batch[0].hash)])
    else
      ([SetUploadCase] + Whens(|batch|) + [ElseDownloadCase] + Whens(|batch|) + [ElseWhereIn]
       + Holes(|batch|) + [Finish],
       CaseArgs(batch, Recv) + CaseArgs(batch, Sent) + HashArgs(batch))
  }

  /** One CASE expression: a branch and two arguments for every entry. */
  method WriteBranches(batch: seq<Entry>, d: Direction) returns (query: seq<Fragment>, args: seq<Arg>)
    ensures query == Whens(|batch|) && args == CaseArgs(batch, d)
  {
    query, args := [], [];
    for i := 0 to |batch|
      invariant query == Whens(i)
      invariant args == CaseArgs(batch[..i], d)
    {
      assert batch[..i + 1] == batch[..i] + [batch[i]];
      CaseArgsAppend(batch[..i], batch[i], d);
      query := query + [WhenThen];
      args := args + [Text(batch[i].hash), Number(batch[i].delta.At(d))];
    }
    assert batch[..|batch|] == batch;
  }

  /** The IN list: a placeholder and an argument for every entry. */
  method WriteHashes(batch: seq<Entry>) returns (query: seq<Fragment>, args: seq<Arg>)
    ensures query == Holes(|batch|) && args == HashArgs(batch)
  {
    query, args := [], [];
    for i := 0 to |batch|
      invariant query == Holes(i)
      invariant args == HashArgs(batch[..i])
    {
      assert batch[..i + 1] == batch[..i] + [batch[i]];
      HashArgsAppend(batch[..i], batch[i]);
      HolesAppend(i);
      if i > 0 {
        query := query + [Comma];
      }
      query := query + [Placeholder];
      args := args + [Text(batch[i].hash)];
    }
    assert batch[..|batch|] == batch;
  }

  method BuildTrafficUpdate(batch: seq<Entry>) returns (query: seq<Fragment>, args: seq<Arg>)
    ensures (query, args) == Statement(batch)
  {
    if |batch| == 1 {
      var e := batch[0];
      return [OneUser], [Number(e.delta.recv), Number(e.delta.sent), Text(e.hash)];
    }
    var uploads, uploadArgs := WriteBranches(batch, Recv);
    var downloads, downloadArgs := WriteBranches(batch, Sent);
    var hashes, hashArgs := WriteHashes(batch);
    query := [SetUploadCase] + uploads + [ElseDownloadCase] + downloads + [ElseWhereIn] + hashes + [Finish];
    args := uploadArgs + downloadArgs + hashArgs;
  }

  // ---------- what the database understands ----------

  /** CASE password WHEN hash THEN n .. ELSE 0 END: the first branch that matches. */
  datatype Branch = Branch(hash: Hash, n: int)

  datatype Update =
    | Single(upload: int, download: int, hash: Hash)
    | Batch(uploads: seq<Branch>, downloads: seq<Branch>, hashes: seq<Hash>)

  datatype Bound<T> = Bound(value: T, query: seq<Fragment>, args: seq<Arg>) | SyntaxError

  function BindBranches(query: seq<Fragment>, args: seq<Arg>): Bound<seq<Branch>>
    decreases |query|
  {
    if query == [] || query[0] != WhenThen then Bound([], query, args)
    else if |args| < 2 || !args[0].Text? || !args[1].Number? then SyntaxError
    else
      match BindBranches(query[1..], args[2..])
      case Bound(rest, q, a) => Bound([Branch(args[0].hash, args[1].n)] + rest, q, a)
      case SyntaxError => SyntaxError
  }

  function BindHashes(query: seq<Fragment>, args: seq<Arg>): Bound<seq<Hash>>
    decreases |query|
  {
    if query == [] || query[0] != Placeholder || args == [] || !args[0].Text? then SyntaxError
    else if |query| > 1 && query[1] == Comma then
      match BindHashes(query[2..], args[1..])
      case Bound(rest, q, a) => Bound([args[0].hash] + rest, q, a)
      case SyntaxError => SyntaxError
    else Bound([args[0].hash], query[1..], args[1..])
  }

  /** The IN list and the end of the statement, after both CASE expressions. */
  function BindWhere(ups: seq<Branch>, downs: seq<Branch>, query: seq<Fragment>, args: seq<Arg>): Bound<Update> {
    if downs == [] || query == [] || query[0] != ElseWhereIn then SyntaxError
    else
      match BindHashes(query[1..], args)
      case SyntaxError => SyntaxError
      case Bound(hashes, q, a) =>
        if q == [Finish] && a == [] then Bound(Batch(ups, downs, hashes), [], []) else SyntaxError
  }

  /** The second CASE expression and the rest of the statement. */
  function BindDownloads(ups: seq<Branch>, query: seq<Fragment>, args: seq<Arg>): Bound<Update> {
    if ups == [] || query == [] || query[0] != ElseDownloadCase then SyntaxError
    else
      match BindBranches(query[1..], args)
      case SyntaxError => SyntaxError
      case Bound(downs, q, a) => BindWhere(ups, downs, q, a)
  }

  /** Parses the statement and binds every argument; an empty CASE or IN list is an error. */
  function Bind(query: seq<Fragment>, args: seq<Arg>): Bound<Update> {
    if query == [OneUser] then
      if |args| == 3 && args[0].Number? && args[1].Number? && args[2].Text? then
        Bound(Single(args[0].n, args[1].n, args[2].hash), [], [])
      else SyntaxError
    else if query == [] || query[0] != SetUploadCase then SyntaxError
    else
      match BindBranches(query[1..], args)
      case SyntaxError => SyntaxError
      case Bound(ups, q, a) => BindDownloads(ups, q, a)
  }

  function CaseValue(branches: seq<Branch>, hash: Hash): int {
    if branches == [] then 0
    else if branches[0].hash == hash then branches[0].n
    else CaseValue(branches[1..], hash)
  }

  function UpdateRow(u: Update, row: Row): Row {
    match u
    case Single(up, down, hash) =>
      if row.hash == hash then row.(upload := row.upload + up, download := row.download + down) else row
    case Batch(ups, downs, hashes) =>
      if row.hash in hashes then
        row.(upload := row.upload + CaseValue(ups, row.hash),
             download := row.download + CaseValue(downs, row.hash))
      else row
  }

  function UpdateTable(u: Update, table: seq<Row>): seq<Row> {
    seq(|table|, i requires 0 <= i < |table| => UpdateRow(u, table[i]))
  }

  /** Executing a statement; a statement the database rejects changes nothing. */
  function Execute(query: seq<Fragment>, args: seq<Arg>, table: seq<Row>): seq<Row> {
    match Bind(query, args)
    case Bound(u, _, _) => UpdateTable(u, table)
    case SyntaxError => table
  }

  // ---------- binding the built statement gives the intended update ----------

  function Branches(batch: seq<Entry>, d: Direction): seq<Branch> {
    if batch == [] then [] else [Branch(batch[0].hash, batch[0].delta.At(d))] + Branches(batch[1..], d)
  }

  function Hashes(batch: seq<Entry>): seq<Hash> {
    if batch == [] then [] else [batch[0].hash] + Hashes(batch[1..])
  }

  lemma NextBranchBinds(b: Branch, q: seq<Fragment>, a: seq<Arg>)
    ensures BindBranches([WhenThen] + q, [Text(b.hash), Number(b.n)] + a)
         == match BindBranches(q, a)
            case Bound(rest, q', a') => Bound([b] + rest, q', a')
            case SyntaxError => SyntaxError
  {
    var query, args := [WhenThen] + q, [Text(b.hash), Number(b.n)] + a;
    assert query[1..] == q && args[2..] == a;
  }

  lemma {:induction false} BranchesBind(batch: seq<Entry>, d: Direction, q: seq<Fragment>, a: seq<Arg>)
    requires q != [] && q[0] != WhenThen
    ensures BindBranches(Whens(|batch|) + q, CaseArgs(batch, d) + a) == Bound(Branches(batch, d), q, a)
    decreases |batch|
  {
    if batch == [] {
      assert Whens(0) + q == q && CaseArgs(batch, d) + a == a;
    } else {
      var b, rest := Branch(batch[0].hash, batch[0].delta.At(d)), batch[1..];
      BranchesBind(rest, d, q, a);
      NextBranchBinds(b, Whens(|rest|) + q, CaseArgs(rest, d) + a);
      assert Whens(|batch|) == [WhenThen] + Whens(|rest|);
      Assoc([WhenThen], Whens(|rest|), q);
      Assoc([Text(b.hash), Number(b.n)], CaseArgs(rest, d), a);
    }
  }

  lemma LastHashBinds(hash: Hash, q: seq<Fragment>, a: seq<Arg>)
    requires q == [] || q[0] != Comma
    ensures BindHashes([Placeholder] + q, [Text(hash)] + a) == Bound([hash], q, a)
  {
    var query, args := [Placeholder] + q, [Text(hash)] + a;
    assert query[1..] == q && args[1..] == a;
    assert |query| > 1 ==> query[1] == q[0];
  }

  lemma NextHashBinds(hash: Hash, q: seq<Fragment>, a: seq<Arg>)
    ensures BindHashes([Placeholder, Comma] + q, [Text(hash)] + a)
         == match BindHashes(q, a)
            case Bound(rest, q', a') => Bound([hash] + rest, q', a')
            case SyntaxError => SyntaxError
  {
    var query, args := [Placeholder, Comma] + q, [Text(hash)] + a;
    assert query[2..] == q && args[1..] == a;
  }

  lemma {:induction false} HashesBind(batch: seq<Entry>, q: seq<Fragment>, a: seq<Arg>)
    requires batch != [] && (q == [] || q[0] != Comma)
    ensures BindHashes(Holes(|batch|) + q, HashArgs(batch) + a) == Bound(Hashes(batch), q, a)
    decreases |batch|
  {
    var hash, rest := batch[0].hash, batch[1..];
    if |batch| == 1 {
      assert HashArgs(batch) == [Text(hash)] && Hashes(batch) == [hash];
      LastHashBinds(hash, q, a);
    } else {
      HashesBind(rest, q, a);
      NextHashBinds(hash, Holes(|rest|) + q, HashArgs(rest) + a);
      Assoc([Placeholder, Comma], Holes(|rest|), q);
      Assoc([Text(hash)], HashArgs(rest), a);
    }
  }

  lemma Head<T>(x: T, rest: seq<T>)
    ensures ([x] + rest)[0] == x && ([x] + rest)[1..] == rest
  {
  }

  lemma AssocAll<T>(a: seq<T>, w: seq<T>, b: seq<T>, c: seq<T>, h: seq<T>, f: seq<T>)
    ensures a + w + b + w + c + h + f == a + (w + (b + (w + (c + (h + f)))))
  {
    Assoc(a + w + b + w + c, h, f);
    Assoc(a + w + b + w, c, h + f);
    Assoc(a + w + b, w, c + (h + f));
    Assoc(a + w, b, w + (c + (h + f)));
    Assoc(a, w, b + (w + (c + (h + f))));
  }

  // The statement text and its arguments, from the back to the front.

  function InPart(n: nat): seq<Fragment> {
    [ElseWhereIn] + (Holes(n) + [Finish])
  }

  function DownloadPart(n: nat): seq<Fragment> {
    [ElseDownloadCase] + (Whens(n) + InPart(n))
  }

  lemma StatementParts(batch: seq<Entry>)
    requires |batch| > 1
    ensures Statement(batch).0 == [SetUploadCase] + (Whens(|batch|) + DownloadPart(|batch|))
    ensures Statement(batch).1 == CaseArgs(batch, Recv) + (CaseArgs(batch, Sent) + (HashArgs(batch) + []))
  {
    var n := |batch|;
    AssocAll([SetUploadCase], Whens(n), [ElseDownloadCase], [ElseWhereIn], Holes(n), [Finish]);
    Assoc(CaseArgs(batch, Recv), CaseArgs(batch, Sent), HashArgs(batch));
    assert HashArgs(batch) + [] == HashArgs(batch);
  }

  lemma WhereBinds(batch: seq<Entry>)
    requires batch != []
    ensures Branches(batch, Sent) != []
    ensures BindWhere(Branches(batch, Recv), Branches(batch, Sent), InPart(|batch|), HashArgs(batch) + [])
         == Bound(Batch(Branches(batch, Recv), Branches(batch, Sent), Hashes(batch)), [], [])
  {
    Head(ElseWhereIn, Holes(|batch|) + [Finish]);
    HashesBind(batch, [Finish], []);
  }

  lemma DownloadsBind(batch: seq<Entry>)
    requires batch != []
    ensures Branches(batch, Recv) != []
    ensures BindDownloads(Branches(batch, Recv), DownloadPart(|batch|), CaseArgs(batch, Sent) + (HashArgs(batch) + []))
         == BindWhere(Branches(batch, Recv), Branches(batch, Sent), InPart(|batch|), HashArgs(batch) + [])
  {
    Head(ElseDownloadCase, Whens(|batch|) + InPart(|batch|));
    Head(ElseWhereIn, Holes(|batch|) + [Finish]);
    BranchesBind(batch, Sent, InPart(|batch|), HashArgs(batch) + []);
  }

  /** Every placeholder of the built statement gets the argument meant for it. */
  lemma StatementBinds(batch: seq<Entry>)
    requires batch != []
    ensures var (query, args) := Statement(batch);
      Bind(query, args) == Bound(
        if |batch| == 1 then Single(batch[0].delta.recv, batch[0].delta.sent, batch[0].hash)
        else Batch(Branches(batch, Recv), Branches(batch, Sent), Hashes(batch)), [], [])
  {
    if |batch| > 1 {
      var n := |batch|;
      StatementParts(batch);
      Head(SetUploadCase, Whens(n) + DownloadPart(n));
      Head(ElseDownloadCase, Whens(n) + InPart(n));
      BranchesBind(batch, Recv, DownloadPart(n), CaseArgs(batch, Sent) + (HashArgs(batch) + []));
      DownloadsBind(batch);
      WhereBinds(batch);
    }
  }

  // ---------- one batch means the same as single updates in any order ----------

  /** The single-user statement for each entry, one after the other. */
  function Singles(batch: seq<Entry>, table: seq<Row>): seq<Row> {
    if batch == [] then table
    else
      var (query, args) := Statement([batch[0]]);
      Singles(batch[1..], Execute(query, args, table))
  }

  ghost predicate Distinct(batch: seq<Entry>) {
    forall i, j | 0 <= i < j < |batch| :: batch[i].hash != batch[j].hash
  }

  /** What `batch` owes to `hash` in direction `d`. */
  function Owed(batch: seq<Entry>, hash: Hash, d: Direction): int {
    if batch == [] then 0
    else if batch[0].hash == hash then batch[0].delta.At(d)
    else Owed(batch[1..], hash, d)
  }

  function Credit(row: Row, recv: int, sent: int): Row {
    row.(upload := row.upload + recv, download := row.download + sent)
  }

  /** The row credited with what the batch owes to its user. */
  function Owing(batch: seq<Entry>, row: Row): Row {
    Credit(row, Owed(batch, row.hash, Recv), Owed(batch, row.hash, Sent))
  }

  lemma {:induction false} BranchesOwed(batch: seq<Entry>, hash: Hash, d: Direction)
    ensures CaseValue(Branches(batch, d), hash) == Owed(batch, hash, d)
    ensures hash !in Hashes(batch) ==> Owed(batch, hash, d) == 0
    decreases |batch|
  {
    if batch != [] {
      BranchesOwed(batch[1..], hash, d);
      assert Branches(batch, d)[1..] == Branches(batch[1..], d);
    }
  }

  /** The batch statement credits every row with what the batch owes to its user. */
  lemma BatchCredits(batch: seq<Entry>, table: seq<Row>)
    requires batch != []
    ensures var (query, args) := Statement(batch);
      var after := Execute(query, args, table);
      |after| == |table| && forall i | 0 <= i < |table| :: after[i] == Owing(batch, table[i])
  {
    StatementBinds(batch);
    var (query, args) := Statement(batch);
    var update := Bind(query, args).value;
    assert |batch| == 1 ==> batch[1..] == [];
    forall i | 0 <= i < |table|
      ensures UpdateRow(update, table[i]) == Owing(batch, table[i])
    {
      BranchesOwed(batch, table[i].hash, Recv);
      BranchesOwed(batch, table[i].hash, Sent);
    }
  }

  lemma {:induction false} OwedNothing(batch: seq<Entry>, hash: Hash, d: Direction)
    requires forall i | 0 <= i < |batch| :: batch[i].hash != hash
    ensures Owed(batch, hash, d) == 0
    decreases |batch|
  {
    if batch != [] {
      OwedNothing(batch[1..], hash, d);
    }
  }

  lemma {:induction false} SinglesCredit(batch: seq<Entry>, table: seq<Row>)
    requires Distinct(batch)
    ensures |Singles(batch, table)| == |table|
    ensures forall i | 0 <= i < |table| :: Singles(batch, table)[i] == Owing(batch, table[i])
    decreases |batch|
  {
    if batch != [] {
      var (query, args) := Statement([batch[0]]);
      var after := Execute(query, args, table);
      BatchCredits([batch[0]], table);
      SinglesCredit(batch[1..], after);
      forall i | 0 <= i < |table|
        ensures Singles(batch, table)[i] == Owing(batch, table[i])
      {
        OneThenRest(batch, table[i]);
        assert Singles(batch, table)[i] == Owing(batch[1..], after[i]);
      }
    }
  }

  lemma OneThenRest(batch: seq<Entry>, row: Row)
    requires batch != [] && Distinct(batch)
    ensures Owing(batch[1..], Owing([batch[0]], row)) == Owing(batch, row)
  {
    var one := [batch[0]];
    assert one[1..] == [];
    assert forall d :: Owed(one, row.hash, d) == if batch[0].hash == row.hash then batch[0].delta.At(d) else 0;
    if row.hash == batch[0].hash {
      OwedNothing(batch[1..], row.hash, Recv);
      OwedNothing(batch[1..], row.hash, Sent);
    }
  }

  lemma {:induction false} OwedMember(batch: seq<Entry>, e: Entry, d: Direction)
    requires Distinct(batch) && e in batch
    ensures Owed(batch, e.hash, d) == e.delta.At(d)
    decreases |batch|
  {
    if batch[0] != e {
      OwedMember(batch[1..], e, d);
    }
  }

  /** With distinct hashes, what is owed does not depend on the order of the entries. */
  lemma OwedUnordered(batch: seq<Entry>, order: seq<Entry>, hash: Hash, d: Direction)
    requires Distinct(batch) && Distinct(order)
    requires forall e :: e in batch <==> e in order
    ensures Owed(batch, hash, d) == Owed(order, hash, d)
  {
    if i :| 0 <= i < |batch| && batch[i].hash == hash {
      assert batch[i] in order;
      OwedMember(batch, batch[i], d);
      OwedMember(order, batch[i], d);
    } else {
      OwedNothing(batch, hash, d);
      forall j | 0 <= j < |order|
        ensures order[j].hash != hash
      {
        assert order[j] in batch;
      }
      OwedNothing(order, hash, d);
    }
  }

  lemma PermutationDistinct(batch: seq<Entry>, order: seq<Entry>)
    requires Distinct(batch) && multiset(batch) == multiset(order)
    ensures Distinct(order)
    ensures forall e :: e in batch <==> e in order
  {
    forall e
      ensures e in batch <==> e in order
    {
      assert e in multiset(batch) <==> e in multiset(order);
    }
    forall i, j | 0 <= i < j < |order|
      ensures order[i].hash != order[j].hash
    {
      if order[i].hash == order[j].hash {
        assert order[i] in batch && order[j] in batch;
        assert order[i] == order[j];
        TwiceInMultiset(order, i, j);
        OnceInMultiset(batch, order[i]);
      }
    }
  }

  lemma TwiceInMultiset(s: seq<Entry>, i: nat, j: nat)
    requires i < j < |s| && s[i] == s[j]
    ensures multiset(s)[s[i]] >= 2
  {
    assert s == s[..j] + [s[j]] + s[j + 1..];
    assert s[..j][i] == s[i];
  }

  lemma {:induction false} OnceInMultiset(batch: seq<Entry>, e: Entry)
    requires Distinct(batch)
    ensures multiset(batch)[e] <= 1
    decreases |batch|
  {
    if batch != [] {
      OnceInMultiset(batch[1..], e);
      assert batch == [batch[0]] + batch[1..];
    }
  }

  /**
    For every batch of distinct users and every table, the generated statement leaves the
    same table as the single-user statements issued in any order.
  */
  lemma BatchEqualsSingles(batch: seq<Entry>, order: seq<Entry>, table: seq<Row>)
    requires batch != [] && Distinct(batch) && multiset(batch) == multiset(order)
    ensures var (query, args) := Statement(batch);
      Execute(query, args, table) == Singles(order, table)
  {
    PermutationDistinct(batch, order);
    BatchCredits(batch, table);
    SinglesCredit(order, table);
    forall i | 0 <= i < |table|
      ensures Owing(batch, table[i]) == Owing(order, table[i])
    {
      OwedUnordered(batch, order, table[i].hash, Recv);
      OwedUnordered(batch, order, table[i].hash, Sent);
    }
  }
}
