/** The token tables: one per game and platform, each row holding a token. What deleting tokens one
    by one does to them, and what deleting them by groups does. */
module TokenTables {
  import opened Broker
  import opened Wrappers
  import D = DeleteStatement

  /** The token column of every table; two rows may hold the same token. */
  type Tables = map<string, seq<string>>

  type Group = (string, string)

  function TableOf(game: string, platform: string): string {
    game + "_" + platform
  }

  function GroupOf(t: InvalidToken): Group {
    (t.game, t.platform)
  }

  function TableOfToken(t: InvalidToken): string {
    TableOf(t.game, t.platform)
  }

  predicate Plain(s: string) {
    forall k | 0 <= k < |s| :: s[k] != ' '
  }

  /** Distinct games and platforms have distinct tables. */
  lemma TablesAreDistinct(g1: string, p1: string, g2: string, p2: string)
    requires p1 == APNS_PLATFORM || p1 == GCM_PLATFORM
    requires p2 == APNS_PLATFORM || p2 == GCM_PLATFORM
    requires TableOf(g1, p1) == TableOf(g2, p2)
    ensures g1 == g2 && p1 == p2
  {
    var t := TableOf(g1, p1);
    assert t[|t| - 1] == p1[|p1| - 1] && t[|t| - 1] == p2[|p2| - 1];
    assert g1 == t[..|t| - 1 - |p1|] && g2 == t[..|t| - 1 - |p2|];
  }

  function Keep(rows: seq<string>, doomed: set<string>): (kept: seq<string>)
    ensures |kept| <= |rows|
  {
    if rows == [] then []
    else if rows[0] in doomed then Keep(rows[1..], doomed)
    else [rows[0]] + Keep(rows[1..], doomed)
  }

  lemma {:induction false} KeepTwice(rows: seq<string>, a: set<string>, b: set<string>)
    ensures Keep(Keep(rows, a), b) == Keep(rows, a + b)
  {
    if rows != [] {
      KeepTwice(rows[1..], a, b);
      if rows[0] !in a {
        assert Keep(rows, a)[1..] == Keep(rows[1..], a);
      }
    }
  }

  lemma {:induction false} KeepNone(rows: seq<string>)
    ensures Keep(rows, {}) == rows
  {
    if rows != [] {
      KeepNone(rows[1..]);
    }
  }

  /** No row of a doomed token is kept, and no other row is lost. */
  lemma {:induction false} KeepCounts(rows: seq<string>, doomed: set<string>, token: string)
    ensures multiset(Keep(rows, doomed))[token] == if token in doomed then 0 else multiset(rows)[token]
  {
    if rows != [] {
      KeepCounts(rows[1..], doomed, token);
      assert rows == [rows[0]] + rows[1..];
    }
  }

  function Purge(tables: Tables, table: string, doomed: set<string>): Tables {
    if table in tables then tables[table := Keep(tables[table], doomed)] else tables
  }

  /** The specification: each token is deleted on its own from the table of its game and platform. */
  function DeleteEach(tables: Tables, tokens: seq<InvalidToken>): Tables {
    if tokens == [] then tables
    else
      var t := tokens[|tokens| - 1];
      Purge(DeleteEach(tables, tokens[..|tokens| - 1]), TableOfToken(t), {t.token})
  }

  /** The tokens of some groups. */
  function Select(tokens: seq<InvalidToken>, groups: set<Group>): seq<InvalidToken> {
    if tokens == [] then []
    else
      var t := tokens[|tokens| - 1];
      Select(tokens[..|tokens| - 1], groups) + if GroupOf(t) in groups then [t] else []
  }

  function GroupTokens(tokens: seq<InvalidToken>, game: string, platform: string): seq<string> {
    if tokens == [] then []
    else
      var t := tokens[|tokens| - 1];
      GroupTokens(tokens[..|tokens| - 1], game, platform)
      + if t.game == game && t.platform == platform then [t.token] else []
  }

  function Elements(s: seq<string>): set<string> {
    set x | x in s
  }

  /** The tokens to delete from one table. */
  function Doomed(tokens: seq<InvalidToken>, table: string): set<string> {
    set t | t in tokens && TableOfToken(t) == table :: t.token
  }

  function Purged(tables: Tables, tokens: seq<InvalidToken>): Tables {
    map table | table in tables :: Keep(tables[table], Doomed(tokens, table))
  }

  lemma DoomedWithToken(before: seq<InvalidToken>, t: InvalidToken, table: string)
    ensures Doomed(before + [t], table) == Doomed(before, table) + if TableOfToken(t) == table then {t.token} else {}
  {
  }

  lemma PurgeOneMoreToken(tables: Tables, before: seq<InvalidToken>, t: InvalidToken)
    ensures Purge(Purged(tables, before), TableOfToken(t), {t.token}) == Purged(tables, before + [t])
  {
    forall table | table in tables
      ensures Keep(tables[table], Doomed(before + [t], table))
           == if table == TableOfToken(t) then Keep(Keep(tables[table], Doomed(before, table)), {t.token})
              else Keep(tables[table], Doomed(before, table))
    {
      DoomedWithToken(before, t, table);
      assert Doomed(before, table) + {} == Doomed(before, table);
      KeepTwice(tables[table], Doomed(before, table), {t.token});
    }
  }

  /** Deleting one by one comes to purging every table of its tokens: the order does not matter. */
  lemma {:induction false} DeleteEachIsPurged(tables: Tables, tokens: seq<InvalidToken>)
    ensures DeleteEach(tables, tokens) == Purged(tables, tokens)
  {
    if tokens == [] {
      forall table | table in tables ensures Purged(tables, tokens)[table] == tables[table] {
        assert Doomed(tokens, table) == {};
        KeepNone(tables[table]);
      }
    } else {
      var before, t := tokens[..|tokens| - 1], tokens[|tokens| - 1];
      DeleteEachIsPurged(tables, before);
      PurgeOneMoreToken(tables, before, t);
      assert tokens == before + [t];
    }
  }

  lemma {:induction false} SelectMembers(tokens: seq<InvalidToken>, groups: set<Group>, t: InvalidToken)
    ensures t in Select(tokens, groups) <==> t in tokens && GroupOf(t) in groups
  {
    if tokens != [] {
      SelectMembers(tokens[..|tokens| - 1], groups, t);
      assert tokens == tokens[..|tokens| - 1] + [tokens[|tokens| - 1]];
    }
  }

  lemma {:induction false} GroupMembers(tokens: seq<InvalidToken>, game: string, platform: string, x: string)
    ensures x in GroupTokens(tokens, game, platform) <==> InvalidToken(x, game, platform) in tokens
  {
    if tokens != [] {
      GroupMembers(tokens[..|tokens| - 1], game, platform, x);
      assert tokens == tokens[..|tokens| - 1] + [tokens[|tokens| - 1]];
    }
  }

  lemma GroupTokensOfOne(t: InvalidToken, game: string, platform: string)
    ensures GroupTokens([t], game, platform) == if t.game == game && t.platform == platform then [t.token] else []
  {
    assert GroupTokens([t][..0], game, platform) == [];
  }

  /** A group keeps the order of arrival. */
  lemma {:induction false} GroupTokensInOrder(a: seq<InvalidToken>, b: seq<InvalidToken>,
                                              game: string, platform: string)
    ensures GroupTokens(a + b, game, platform) == GroupTokens(a, game, platform) + GroupTokens(b, game, platform)
    decreases |b|
  {
    if b == [] {
      assert a + b == a;
    } else {
      assert (a + b)[..|a + b| - 1] == a + b[..|b| - 1];
      GroupTokensInOrder(a, b[..|b| - 1], game, platform);
    }
  }

  /** Purging the table of one more group adds that group to the tokens deleted. */
  lemma PurgeOneMoreGroup(tables: Tables, tokens: seq<InvalidToken>, groups: set<Group>, game: string, platform: string)
    ensures Purge(Purged(tables, Select(tokens, groups)), TableOf(game, platform),
                  Elements(GroupTokens(tokens, game, platform)))
         == Purged(tables, Select(tokens, groups + {(game, platform)}))
  {
    var some, more := Select(tokens, groups), Select(tokens, groups + {(game, platform)});
    var group := Elements(GroupTokens(tokens, game, platform));
    forall table | table in tables
      ensures Keep(tables[table], Doomed(more, table))
           == if table == TableOf(game, platform) then Keep(Keep(tables[table], Doomed(some, table)), group)
              else Keep(tables[table], Doomed(some, table))
    {
      DoomedWithGroup(tokens, groups, game, platform, table);
      if table == TableOf(game, platform) {
        KeepTwice(tables[table], Doomed(some, table), group);
      } else {
        assert Doomed(more, table) == Doomed(some, table);
      }
    }
  }

  lemma DoomedWithGroup(tokens: seq<InvalidToken>, groups: set<Group>, game: string, platform: string, table: string)
    ensures Doomed(Select(tokens, groups + {(game, platform)}), table)
         == Doomed(Select(tokens, groups), table)
            + (if table == TableOf(game, platform) then Elements(GroupTokens(tokens, game, platform)) else {})
  {
    var some, more := Select(tokens, groups), Select(tokens, groups + {(game, platform)});
    forall x ensures x in Doomed(more, table) <==>
        x in Doomed(some, table) || (table == TableOf(game, platform) && x in GroupTokens(tokens, game, platform))
    {
      forall t: InvalidToken ensures t in more <==> t in some || (t in tokens && GroupOf(t) == (game, platform)) {
        SelectMembers(tokens, groups, t);
        SelectMembers(tokens, groups + {(game, platform)}, t);
      }
      GroupMembers(tokens, game, platform, x);
      if table == TableOf(game, platform) && InvalidToken(x, game, platform) in tokens {
        assert InvalidToken(x, game, platform) in more;
      }
      if x in Doomed(more, table) {
        var t :| t in more && TableOfToken(t) == table && t.token == x;
        assert t in some || t == InvalidToken(x, game, platform);
      }
      if x in Doomed(some, table) {
        var t :| t in some && TableOfToken(t) == table && t.token == x;
        assert t in more;
      }
    }
  }

  /** A group alone decides what becomes of its table: the other groups, deleted or not, leave it. */
  lemma OwnTable(tables: Tables, tokens: seq<InvalidToken>, groups: set<Group>, game: string, platform: string)
    requires forall t | t in tokens :: KnownPlatform(t)
    requires platform == APNS_PLATFORM || platform == GCM_PLATFORM
    requires TableOf(game, platform) in tables
    ensures Purged(tables, Select(tokens, groups))[TableOf(game, platform)]
         == if (game, platform) in groups
            then Keep(tables[TableOf(game, platform)], Elements(GroupTokens(tokens, game, platform)))
            else tables[TableOf(game, platform)]
  {
    var table, some := TableOf(game, platform), Select(tokens, groups);
    var own := if (game, platform) in groups then Elements(GroupTokens(tokens, game, platform)) else {};
    forall x ensures x in Doomed(some, table) <==> x in own {
      GroupMembers(tokens, game, platform, x);
      SelectMembers(tokens, groups, InvalidToken(x, game, platform));
      if x in Doomed(some, table) {
        var t :| t in some && TableOfToken(t) == table && t.token == x;
        SelectMembers(tokens, groups, t);
        TablesAreDistinct(t.game, t.platform, game, platform);
      }
    }
    assert Doomed(some, table) == own;
    KeepNone(tables[table]);
  }

  lemma {:induction false} SelectAll(tokens: seq<InvalidToken>, groups: set<Group>)
    requires forall t | t in tokens :: GroupOf(t) in groups
    ensures Select(tokens, groups) == tokens
  {
    if tokens != [] {
      assert tokens[|tokens| - 1] in tokens;
      SelectAll(tokens[..|tokens| - 1], groups);
    }
  }

  lemma {:induction false} SelectNone(tokens: seq<InvalidToken>)
    ensures Select(tokens, {}) == []
  {
    if tokens != [] {
      SelectNone(tokens[..|tokens| - 1]);
    }
  }

  /** Groups partition the tokens. */
  lemma {:induction false} SelectSize(tokens: seq<InvalidToken>, groups: set<Group>, game: string, platform: string)
    requires (game, platform) !in groups
    ensures |Select(tokens, groups + {(game, platform)})|
         == |Select(tokens, groups)| + |GroupTokens(tokens, game, platform)|
  {
    if tokens != [] {
      SelectSize(tokens[..|tokens| - 1], groups, game, platform);
    }
  }

  // ---------- Executing a statement ----------

  /** What becomes of a statement the database can read: it may be refused, or carried out while its
      answer is lost; a statement that finds no row may be answered with an error of its own. */
  datatype Verdict = Refuse | Lose | Perform(reportsNoRows: bool)

  datatype ExecResult = Failed | NoRows | Affected(rows: nat)

  function Executed(tables: Tables, query: string, params: seq<string>, verdict: Verdict): (ExecResult, Tables) {
    Effect(tables, D.Read(query), params, verdict)
  }

  function Effect(tables: Tables, statement: Option<D.Delete>, params: seq<string>, verdict: Verdict)
    : (ExecResult, Tables)
  {
    match statement
    case None => (Failed, tables)
    case Some(Delete(table, indices)) =>
      if verdict.Refuse? || table !in tables || exists i | i in indices :: i >= |params| then (Failed, tables)
      else
        var kept := Keep(tables[table], set i | i in indices :: params[i]);
        var gone := |tables[table]| - |kept|;
        var result := if verdict.Lose? then Failed
                      else if gone == 0 && verdict.reportsNoRows then NoRows
                      else Affected(gone);
        (result, tables[table := kept])
  }

  lemma {:induction false} RangeMembers(j: nat, n: nat, i: nat)
    ensures i in D.Range(j, n) <==> j <= i < n
    decreases n - j
  {
    if j < n {
      RangeMembers(j + 1, n, i);
    }
  }

  /** What executing the statement of a group should come to. */
  predicate DeletesGroup(tables: Tables, table: string, tokens: seq<string>, verdict: Verdict,
                         r: (ExecResult, Tables))
  {
    && r.1 == (if verdict.Refuse? then tables else Purge(tables, table, Elements(tokens)))
    && (r.0.Affected? ==> table in tables && r.0.rows == |tables[table]| - |Keep(tables[table], Elements(tokens))|)
    && (r.0.NoRows? ==> r.1 == tables)
    && (r.0.Failed? <==> !verdict.Perform? || table !in tables || tokens == [])
  }

  lemma RangePicks(tokens: seq<string>)
    ensures var indices := D.Range(0, |tokens|);
      && (forall i | i in indices :: i < |tokens|)
      && (set i | i in indices :: tokens[i]) == Elements(tokens)
  {
    var indices := D.Range(0, |tokens|);
    forall i: nat ensures i in indices <==> i < |tokens| {
      RangeMembers(0, |tokens|, i);
    }
    forall x | x in tokens ensures exists i :: i in indices && tokens[i] == x {
      var i :| 0 <= i < |tokens| && tokens[i] == x;
      assert i in indices;
    }
  }

  lemma EffectDeletesGroup(tables: Tables, table: string, tokens: seq<string>, verdict: Verdict)
    requires tokens != []
    ensures DeletesGroup(tables, table, tokens, verdict,
                         Effect(tables, Some(D.Delete(table, D.Range(0, |tokens|))), tokens, verdict))
  {
    RangePicks(tokens);
    if table in tables {
      KeepAll(tables[table], Elements(tokens));
    }
  }

  /** The statement of a group deletes exactly that group from its table, or does nothing. */
  lemma StatementPurges(tables: Tables, table: string, tokens: seq<string>, verdict: Verdict)
    requires Plain(table)
    ensures DeletesGroup(tables, table, tokens, verdict,
                         Executed(tables, D.Statement(table, |tokens|), tokens, verdict))
  {
    D.ReadsStatement(table, |tokens|);
    if tokens == [] {
      assert Elements(tokens) == {};
      if table in tables {
        KeepNone(tables[table]);
      }
    } else {
      EffectDeletesGroup(tables, table, tokens, verdict);
    }
  }

  lemma {:induction false} KeepAll(rows: seq<string>, doomed: set<string>)
    ensures |Keep(rows, doomed)| == |rows| ==> Keep(rows, doomed) == rows
  {
    if rows != [] {
      KeepAll(rows[1..], doomed);
    }
  }
}
