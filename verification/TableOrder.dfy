/** The order in which synapse/_scripts/synapse_port_db.py copies tables: in rounds, each of
    which copies concurrently the tables whose referenced tables are all copied already. */
module TableOrder {
  type TableName = string
  type Constraints = map<TableName, set<TableName>>

  function References(c: Constraints, t: TableName): set<TableName> {
    if t in c then c[t] else {}
  }

  /** Foreign keys among the tables are acyclic, and lead to no table outside: some numbering
      of the tables decreases along every reference. */
  ghost predicate Orderable(tables: set<TableName>, c: Constraints) {
    exists rank: map<TableName, nat> :: Ranks(rank, tables, c)
  }

  ghost predicate Ranks(rank: map<TableName, nat>, tables: set<TableName>, c: Constraints) {
    rank.Keys == tables &&
    forall t, d :: t in tables && d in References(c, t) ==> d in tables && rank[d] < rank[t]
  }

  function Union(rounds: seq<set<TableName>>): set<TableName> {
    if rounds == [] then {} else Union(rounds[..|rounds| - 1]) + rounds[|rounds| - 1]
  }

  /** Each table is in exactly one round, and what it references is in earlier rounds. */
  ghost predicate InOrder(rounds: seq<set<TableName>>, c: Constraints) {
    && (forall i, j :: 0 <= i < j < |rounds| ==> rounds[i] !! rounds[j])
    && (forall i, t :: 0 <= i < |rounds| && t in rounds[i] ==> References(c, t) <= Union(rounds[..i]))
  }

  /** Tables each of which references a member of the set or a table that is never copied. */
  ghost predicate Stuck(s: set<TableName>, tables: set<TableName>, c: Constraints) {
    s != {} && s <= tables && forall t :: t in s ==> exists d :: d in References(c, t) && (d in s || d !in tables)
  }

  lemma {:induction false} LeastRanked(s: set<TableName>, rank: map<TableName, nat>) returns (t: TableName)
    requires s != {} && s <= rank.Keys
    ensures t in s && forall x :: x in s ==> rank[t] <= rank[x]
  {
    t :| t in s;
    var rest := s - {t};
    assert s == rest + {t};
    if rest != {} {
      var m := LeastRanked(rest, rank);
      if rank[m] < rank[t] { t := m; }
    }
  }

  /** A stuck set rules out every order. */
  lemma StuckIsNotOrderable(s: set<TableName>, tables: set<TableName>, c: Constraints)
    requires Stuck(s, tables, c)
    ensures !Orderable(tables, c)
  {
    if rank :| Ranks(rank, tables, c) {
      var t := LeastRanked(s, rank);
      var d :| d in References(c, t) && (d in s || d !in tables);
      assert false;
    }
  }

  /** Two tables that reference each other, and a table that references one outside the copy. */
  lemma UnorderableTables()
    ensures !Orderable({"a", "b"}, map["a" := {"b"}, "b" := {"a"}])
    ensures !Orderable({"a"}, map["a" := {"ignored"}])
  {
    var mutual: Constraints := map["a" := {"b"}, "b" := {"a"}];
    assert "b" in References(mutual, "a") && "a" in References(mutual, "b");
    StuckIsNotOrderable({"a", "b"}, {"a", "b"}, mutual);
    var outside: Constraints := map["a" := {"ignored"}];
    assert "ignored" in References(outside, "a");
    StuckIsNotOrderable({"a"}, {"a"}, outside);
  }

  lemma {:induction false} UnionHas(rounds: seq<set<TableName>>, t: TableName)
    ensures t in Union(rounds) <==> exists i :: 0 <= i < |rounds| && t in rounds[i]
  {
    if rounds != [] {
      UnionHas(rounds[..|rounds| - 1], t);
    }
  }

  /** A round that copies the table. */
  function RoundOf(rounds: seq<set<TableName>>, t: TableName): (i: nat)
    requires t in Union(rounds)
    ensures i < |rounds| && t in rounds[i]
  {
    var last := |rounds| - 1;
    if t in rounds[last] then last else RoundOf(rounds[..last], t)
  }

  lemma {:induction false} ReferenceIsEarlier(rounds: seq<set<TableName>>, c: Constraints, t: TableName, d: TableName)
    requires InOrder(rounds, c) && t in Union(rounds) && d in References(c, t)
    ensures d in Union(rounds) && RoundOf(rounds, d) < RoundOf(rounds, t)
  {
    var i := RoundOf(rounds, t);
    UnionHas(rounds[..i], d);
    var j :| 0 <= j < i && d in rounds[..i][j];
    assert d in rounds[j];
    UnionHas(rounds, d);
  }

  /** A finished run numbers the tables by round. */
  lemma {:induction false} FinishedIsOrderable(rounds: seq<set<TableName>>, c: Constraints)
    requires InOrder(rounds, c)
    ensures Orderable(Union(rounds), c)
  {
    var tables := Union(rounds);
    var rank: map<TableName, nat> := map t | t in tables :: RoundOf(rounds, t);
    forall t, d | t in tables && d in References(c, t) ensures d in tables && rank[d] < rank[t] {
      ReferenceIsEarlier(rounds, c, t, d);
    }
    assert Ranks(rank, tables, c);
  }

  /** The copying loop of Porter.run. When no table can be picked the original spins for
      ever; here the method reports it. It finishes if and only if the foreign keys are
      acyclic and closed, and then every table is copied once, after what it references. */
  method PortTables(tables: set<TableName>, c: Constraints) returns (finished: bool, rounds: seq<set<TableName>>)
    ensures finished <==> Orderable(tables, c)
    ensures InOrder(rounds, c) && Union(rounds) <= tables
    ensures finished ==> Union(rounds) == tables
    ensures !finished ==> Stuck(tables - Union(rounds), tables, c)
  {
    rounds := [];
    var toPort, ported := tables, {};
    while toPort != {}
      invariant InOrder(rounds, c) && ported == Union(rounds)
      invariant toPort == tables - ported && ported <= tables
      decreases toPort
    {
      var ready := set t | t in toPort && References(c, t) - ported == {};
      if ready == {} {
        StuckWhenNoneReady(tables, ported, c);
        StuckIsNotOrderable(toPort, tables, c);
        return false, rounds;
      }
      forall t | t in ready ensures References(c, t) <= ported {
        forall d | d in References(c, t) ensures d in ported {
          assert d !in References(c, t) - ported;
        }
      }
      RoundKeepsOrder(rounds, ready, c);
      rounds := rounds + [ready];
      toPort, ported := toPort - ready, ported + ready;
    }
    FinishedIsOrderable(rounds, c);
    assert Union(rounds) == tables;
    finished := true;
  }

  lemma StuckWhenNoneReady(tables: set<TableName>, ported: set<TableName>, c: Constraints)
    requires tables - ported != {} && ported <= tables
    requires forall t :: t in tables - ported ==> References(c, t) - ported != {}
    ensures Stuck(tables - ported, tables, c)
  {
    forall t | t in tables - ported
      ensures exists d :: d in References(c, t) && (d in tables - ported || d !in tables)
    {
      var d :| d in References(c, t) - ported;
    }
  }

  lemma {:induction false} RoundKeepsOrder(rounds: seq<set<TableName>>, ready: set<TableName>, c: Constraints)
    requires InOrder(rounds, c) && ready !! Union(rounds)
    requires forall t :: t in ready ==> References(c, t) <= Union(rounds)
    ensures InOrder(rounds + [ready], c) && Union(rounds + [ready]) == Union(rounds) + ready
  {
    var more := rounds + [ready];
    assert more[..|rounds|] == rounds;
    forall i | 0 <= i < |rounds| ensures rounds[i] !! ready {
      forall t | t in rounds[i] ensures t !in ready { UnionHas(rounds, t); }
    }
    assert forall i :: 0 <= i < |rounds| ==> more[..i] == rounds[..i];
  }
}
