/** The invalid-token handler: a buffer of tokens that is flushed, by size or by timer, into one
    DELETE statement per platform and game. */
module InvalidTokens {
  import opened Broker
  import opened Wrappers
  import opened TokenTables
  import opened Sums
  import D = DeleteStatement

  // ---------- Grouping ----------

  type Groups = map<string, map<string, seq<string>>>

  /** Each group of tokens that occurs, under its platform and game, in order of arrival. */
  ghost predicate Splits(m: Groups, tokens: seq<InvalidToken>) {
    && m.Keys == {APNS_PLATFORM, GCM_PLATFORM}
    && forall platform, game {:trigger GroupTokens(tokens, game, platform)} | platform in m ::
         if game in m[platform] then m[platform][game] == GroupTokens(tokens, game, platform) != []
         else GroupTokens(tokens, game, platform) == []
  }

  lemma GroupTokensOfOneMore(tokens: seq<InvalidToken>, t: InvalidToken, game: string, platform: string)
    ensures GroupTokens(tokens + [t], game, platform)
         == GroupTokens(tokens, game, platform) + if t.game == game && t.platform == platform then [t.token] else []
  {
    assert (tokens + [t])[..|tokens|] == tokens;
  }

  lemma SplitsOneMore(m: Groups, n: Groups, tokens: seq<InvalidToken>, t: InvalidToken)
    requires Splits(m, tokens) && KnownPlatform(t)
    requires n == m[t.platform := m[t.platform][t.game :=
      (if t.game in m[t.platform] then m[t.platform][t.game] else []) + [t.token]]]
    ensures Splits(n, tokens + [t])
  {
    assert t.platform in m;
    forall platform, game | platform in m
      ensures if game in n[platform] then n[platform][game] == GroupTokens(tokens + [t], game, platform) != []
              else GroupTokens(tokens + [t], game, platform) == []
    {
      GroupTokensOfOneMore(tokens, t, game, platform);
    }
  }

  /** The maps of both platforms exist beforehand; a token of a third one has no map to go to. */
  method SplitTokens(tokens: seq<InvalidToken>) returns (m: Groups)
    requires forall t | t in tokens :: KnownPlatform(t)
    ensures Splits(m, tokens)
  {
    m := map[];
    m := m[APNS_PLATFORM := map[]];
    m := m[GCM_PLATFORM := map[]];
    for k := 0 to |tokens|
      invariant Splits(m, tokens[..k])
    {
      var t := tokens[k];
      assert tokens[..k + 1] == tokens[..k] + [t] && KnownPlatform(t);
      ghost var before := m;
      var games := m[t.platform];
      var group := if t.game in games then games[t.game] else [];
      m := m[t.platform := games[t.game := group + [t.token]]];
      SplitsOneMore(before, m, tokens[..k], t);
    }
    assert tokens[..|tokens|] == tokens;
  }

  function GroupsOfPlatform(games: set<string>, platform: string): set<Group> {
    set game | game in games :: (game, platform)
  }

  lemma OneMoreGame(games: set<string>, visited: set<string>, game: string, platform: string, done: set<Group>)
    requires visited <= games && game in games && game !in visited
    requires done * GroupsOfPlatform(games, platform) == {}
    ensures (game, platform) !in done + GroupsOfPlatform(visited, platform)
    ensures done + GroupsOfPlatform(visited, platform) + {(game, platform)}
         == done + GroupsOfPlatform(visited + {game}, platform)
  {
    assert (game, platform) in GroupsOfPlatform(games, platform);
    assert (game, platform) in done ==> (game, platform) in done * GroupsOfPlatform(games, platform);
  }

  ghost function GroupsIn(m: Groups, platforms: set<string>): set<Group> {
    set platform, game | platform in platforms && platform in m && game in m[platform] :: (game, platform)
  }

  lemma GroupsInOneMore(m: Groups, platforms: set<string>, platform: string)
    requires platform in m && platform !in platforms
    ensures GroupsIn(m, platforms + {platform}) == GroupsIn(m, platforms) + GroupsOfPlatform(m[platform].Keys, platform)
    ensures GroupsIn(m, platforms) * GroupsOfPlatform(m[platform].Keys, platform) == {}
  {
  }

  lemma SplitsPlatform(m: Groups, tokens: seq<InvalidToken>, platform: string)
    requires Splits(m, tokens) && platform in m
    ensures platform == APNS_PLATFORM || platform == GCM_PLATFORM
    ensures forall game | game in m[platform] :: m[platform][game] == GroupTokens(tokens, game, platform) != []
  {
  }

  function GroupsOf(tokens: seq<InvalidToken>): set<Group> {
    set t | t in tokens :: GroupOf(t)
  }

  lemma SomeTokenOfGroup(tokens: seq<InvalidToken>, game: string, platform: string)
    ensures GroupTokens(tokens, game, platform) != [] <==> (game, platform) in GroupsOf(tokens)
  {
    var group := GroupTokens(tokens, game, platform);
    if group != [] {
      GroupMembers(tokens, game, platform, group[0]);
      assert InvalidToken(group[0], game, platform) in tokens;
    }
    if (game, platform) in GroupsOf(tokens) {
      var t :| t in tokens && GroupOf(t) == (game, platform);
      GroupMembers(tokens, game, platform, t.token);
    }
  }

  /** The groups of the split are those of the tokens, none of them empty. */
  lemma GroupsInAll(m: Groups, tokens: seq<InvalidToken>)
    requires Splits(m, tokens) && forall t | t in tokens :: KnownPlatform(t)
    ensures GroupsIn(m, m.Keys) == GroupsOf(tokens)
  {
    forall game, platform ensures (game, platform) in GroupsIn(m, m.Keys) <==> (game, platform) in GroupsOf(tokens) {
      SomeTokenOfGroup(tokens, game, platform);
      if (game, platform) in GroupsOf(tokens) {
        var t :| t in tokens && GroupOf(t) == (game, platform);
        assert KnownPlatform(t) && platform in m;
      }
    }
  }

  // ---------- The account of a flush ----------

  /** One execution: the group, its number of tokens and the answer of the database. */
  datatype Exec = Exec(group: Group, size: nat, result: ExecResult)

  function Size(): Exec -> nat {
    (e: Exec) => e.size
  }

  function Rows(e: Exec): nat {
    if e.result.Affected? then e.result.rows else 0
  }

  function Successes(): Exec -> nat {
    (e: Exec) => Rows(e)
  }

  function Nonexistents(): Exec -> nat {
    (e: Exec) => match e.result
      case Failed => 0
      case NoRows => e.size
      case Affected(rows) => if rows < e.size then e.size - rows else 0
  }

  function Errors(): Exec -> nat {
    (e: Exec) => if e.result.Failed? then e.size else 0
  }

  /** The greater of the tokens asked for and the rows deleted. */
  function Greater(): Exec -> nat {
    (e: Exec) => if Rows(e) > e.size then Rows(e) else e.size
  }

  /** How many rows a table has lost. */
  function Lost(before: Tables, after: Tables, table: string): int {
    if table in before && table in after then |before[table]| - |after[table]| else 0
  }

  /** The tokens beyond the rows lost. */
  function Beyond(size: nat, rows: int): int {
    if rows < size then size - rows else 0
  }

  /** What one answered execution must be counted as: rows lost are successes, tokens beyond them
      are nonexistent, and the tokens of a statement that failed are errors and nothing else. */
  ghost predicate CountedFairly(e: Exec, answered: bool, lost: int) {
    if answered then
      Successes()(e) == lost && Nonexistents()(e) == Beyond(e.size, lost) && Errors()(e) == 0
    else
      Successes()(e) == 0 && Nonexistents()(e) == 0 && Errors()(e) == e.size
  }

  lemma {:induction false} CountsAddUp(log: seq<Exec>)
    ensures Sum(Successes(), log) + Sum(Nonexistents(), log) + Sum(Errors(), log) == Sum(Greater(), log)
  {
    if log != [] {
      CountsAddUp(log[1..]);
    }
  }

  ghost predicate AllPlain(tokens: seq<InvalidToken>) {
    forall t | t in tokens :: Plain(TableOfToken(t))
  }

  /** The groups whose statement reaches the tables. */
  function Performed(groups: set<Group>, verdict: Group -> Verdict): set<Group> {
    set g | g in groups && !verdict(g).Refuse?
  }

  /** An execution is reported truthfully: the rows it claims are the rows its table has lost. */
  ghost predicate Truthful(e: Exec, before: Tables, tokens: seq<InvalidToken>, verdict: Group -> Verdict) {
    var table := TableOf(e.group.0, e.group.1);
    var doomed := Elements(GroupTokens(tokens, e.group.0, e.group.1));
    && (e.result.Failed? <==> !verdict(e.group).Perform? || table !in before)
    && (e.result.Affected? ==> table in before && e.result.rows == |before[table]| - |Keep(before[table], doomed)|)
    && (e.result.NoRows? ==> table in before && Keep(before[table], doomed) == before[table])
  }

  ghost predicate Distinct(log: seq<Exec>) {
    forall i, j | 0 <= i < j < |log| :: log[i].group != log[j].group
  }

  /** The state of a flush after the executions in `log`: every group in `done` had its one. */
  ghost predicate Account(before: Tables, tables: Tables, tokens: seq<InvalidToken>, done: set<Group>,
                          verdict: Group -> Verdict, log: seq<Exec>)
  {
    && (AllPlain(tokens) ==> tables == Purged(before, Select(tokens, Performed(done, verdict))))
    && (AllPlain(tokens) ==> forall e | e in log :: Truthful(e, before, tokens, verdict))
    && (set e | e in log :: e.group) == done
    && Distinct(log)
    && (forall e | e in log :: e.size == |GroupTokens(tokens, e.group.0, e.group.1)|)
    && Sum(Size(), log) == |Select(tokens, done)|
  }

  lemma AccountStarts(tables: Tables, tokens: seq<InvalidToken>, verdict: Group -> Verdict)
    ensures Account(tables, tables, tokens, {}, verdict, [])
  {
    SelectNone(tokens);
    assert Performed({}, verdict) == {};
    DeleteEachIsPurged(tables, []);
  }

  /** The statement of one more group keeps the tables in step with the tokens dealt with. */
  lemma TablesFollow(before: Tables, tables: Tables, tokens: seq<InvalidToken>, done: set<Group>,
                     verdict: Group -> Verdict, game: string, platform: string, r: (ExecResult, Tables))
    requires tables == Purged(before, Select(tokens, Performed(done, verdict)))
    requires DeletesGroup(tables, TableOf(game, platform), GroupTokens(tokens, game, platform),
                          verdict((game, platform)), r)
    ensures r.1 == Purged(before, Select(tokens, Performed(done + {(game, platform)}, verdict)))
  {
    var g := (game, platform);
    if verdict(g).Refuse? {
      assert Performed(done + {g}, verdict) == Performed(done, verdict);
    } else {
      assert Performed(done + {g}, verdict) == Performed(done, verdict) + {g};
      PurgeOneMoreGroup(before, tokens, Performed(done, verdict), game, platform);
    }
  }

  lemma AnswerIsTruthful(before: Tables, tables: Tables, tokens: seq<InvalidToken>, done: set<Group>,
                         verdict: Group -> Verdict, game: string, platform: string, r: (ExecResult, Tables), size: nat)
    requires forall t | t in tokens :: KnownPlatform(t)
    requires platform == APNS_PLATFORM || platform == GCM_PLATFORM
    requires (game, platform) !in done && GroupTokens(tokens, game, platform) != []
    requires tables == Purged(before, Select(tokens, Performed(done, verdict)))
    requires DeletesGroup(tables, TableOf(game, platform), GroupTokens(tokens, game, platform),
                          verdict((game, platform)), r)
    ensures Truthful(Exec((game, platform), size, r.0), before, tokens, verdict)
  {
    if TableOf(game, platform) in before {
      OwnTable(before, tokens, Performed(done, verdict), game, platform);
    }
  }

  lemma AccountGrows(before: Tables, tables: Tables, tokens: seq<InvalidToken>, done: set<Group>,
                     verdict: Group -> Verdict, log: seq<Exec>, game: string, platform: string, r: (ExecResult, Tables))
    requires Account(before, tables, tokens, done, verdict, log)
    requires forall t | t in tokens :: KnownPlatform(t)
    requires platform == APNS_PLATFORM || platform == GCM_PLATFORM
    requires (game, platform) !in done && GroupTokens(tokens, game, platform) != []
    requires r == Executed(tables, D.Statement(TableOf(game, platform), |GroupTokens(tokens, game, platform)|),
                           GroupTokens(tokens, game, platform), verdict((game, platform)))
    ensures Account(before, r.1, tokens, done + {(game, platform)}, verdict,
                    log + [Exec((game, platform), |GroupTokens(tokens, game, platform)|, r.0)])
  {
    var g, group := (game, platform), GroupTokens(tokens, game, platform);
    var e := Exec(g, |group|, r.0);
    if AllPlain(tokens) {
      SomeTokenOfGroup(tokens, game, platform);
      StatementPurges(tables, TableOf(game, platform), group, verdict(g));
      TablesFollow(before, tables, tokens, done, verdict, game, platform, r);
      AnswerIsTruthful(before, tables, tokens, done, verdict, game, platform, r, |group|);
    }
    SelectSize(tokens, done, game, platform);
    SumAppend(Size(), log, e);
    forall i | 0 <= i < |log| ensures log[i].group != g {
      assert log[i] in log;
    }
  }

  /** A whole flush: every group of the tokens has had its one execution, and nothing else has. */
  ghost predicate Flushed(before: Tables, after: Tables, tokens: seq<InvalidToken>,
                          verdict: Group -> Verdict, log: seq<Exec>)
  {
    && (AllPlain(tokens) ==> after == DeleteEach(before, Select(tokens, Performed(GroupsOf(tokens), verdict))))
    && (AllPlain(tokens) ==> forall e | e in log :: Truthful(e, before, tokens, verdict))
    && (set e | e in log :: e.group) == GroupsOf(tokens)
    && Distinct(log)
    && (forall e | e in log :: e.size == |GroupTokens(tokens, e.group.0, e.group.1)|)
    && Sum(Size(), log) == |tokens|
  }

  lemma AccountCloses(before: Tables, after: Tables, tokens: seq<InvalidToken>, done: set<Group>,
                      verdict: Group -> Verdict, log: seq<Exec>)
    requires Account(before, after, tokens, done, verdict, log) && done == GroupsOf(tokens)
    ensures Flushed(before, after, tokens, verdict, log)
  {
    SelectAll(tokens, done);
    DeleteEachIsPurged(before, Select(tokens, Performed(done, verdict)));
  }

  /** When no statement is refused, a flush deletes exactly its tokens, one by one. */
  lemma FlushDeletesEach(before: Tables, after: Tables, tokens: seq<InvalidToken>,
                         verdict: Group -> Verdict, log: seq<Exec>)
    requires Flushed(before, after, tokens, verdict, log) && AllPlain(tokens)
    requires forall g | g in GroupsOf(tokens) :: !verdict(g).Refuse?
    ensures after == DeleteEach(before, tokens)
  {
    assert Performed(GroupsOf(tokens), verdict) == GroupsOf(tokens);
    SelectAll(tokens, GroupsOf(tokens));
  }

  /** What a flush leaves in the table of one group depends on that group and its verdict alone:
      a refused group keeps its rows, and no refusal elsewhere changes the result. */
  lemma GroupsFailAlone(before: Tables, after: Tables, tokens: seq<InvalidToken>,
                        verdict: Group -> Verdict, log: seq<Exec>,
                        game: string, platform: string)
    requires Flushed(before, after, tokens, verdict, log) && AllPlain(tokens)
    requires forall t | t in tokens :: KnownPlatform(t)
    requires platform == APNS_PLATFORM || platform == GCM_PLATFORM
    requires TableOf(game, platform) in before
    ensures after.Keys == before.Keys
    ensures after[TableOf(game, platform)] ==
      if verdict((game, platform)).Refuse? then before[TableOf(game, platform)]
      else Keep(before[TableOf(game, platform)], Elements(GroupTokens(tokens, game, platform)))
  {
    var g, groups := (game, platform), Performed(GroupsOf(tokens), verdict);
    DeleteEachIsPurged(before, Select(tokens, groups));
    OwnTable(before, tokens, groups, game, platform);
    if g !in GroupsOf(tokens) {
      SomeTokenOfGroup(tokens, game, platform);
      assert Elements(GroupTokens(tokens, game, platform)) == {};
      KeepNone(before[TableOf(game, platform)]);
    }
  }

  lemma SizesKeepUp(start: seq<Exec>, log: seq<Exec>, batches: seq<seq<InvalidToken>>, buffer: seq<InvalidToken>)
    requires Sum(Size(), start) == |Concat(batches)|
    requires start <= log && Sum(Size(), log[|start|..]) == |buffer|
    ensures Sum(Size(), log) == |Concat(batches + [buffer])|
    ensures Concat(batches + [buffer]) == Concat(batches) + buffer
  {
    assert log == start + log[|start|..];
    SumConcat(Size(), start, log[|start|..]);
    ConcatAppend(batches, buffer);
  }

  // ---------- What a flush counts ----------

  /** A group is answered when its statement is carried out and reported, and its table exists. */
  predicate Answered(before: Tables, verdict: Group -> Verdict, g: Group) {
    verdict(g).Perform? && TableOf(g.0, g.1) in before
  }

  /** Every execution of a flush is counted by what happened to its own table over the whole flush. */
  lemma FlushCountsFairly(before: Tables, after: Tables, tokens: seq<InvalidToken>,
                          verdict: Group -> Verdict, log: seq<Exec>, e: Exec)
    requires Flushed(before, after, tokens, verdict, log) && AllPlain(tokens) && e in log
    requires forall t | t in tokens :: KnownPlatform(t)
    ensures CountedFairly(e, Answered(before, verdict, e.group), Lost(before, after, TableOf(e.group.0, e.group.1)))
    ensures e.size == |GroupTokens(tokens, e.group.0, e.group.1)|
  {
    assert Truthful(e, before, tokens, verdict);
    assert e.group in (set x | x in log :: x.group) && e.group in GroupsOf(tokens);
    var t :| t in tokens && GroupOf(t) == e.group;
    assert KnownPlatform(t);
    if TableOf(e.group.0, e.group.1) in before {
      GroupsFailAlone(before, after, tokens, verdict, log, e.group.0, e.group.1);
    }
  }

  lemma LastGroupIsNew(log: seq<Exec>, e: Exec)
    requires Distinct(log + [e])
    ensures Distinct(log) && forall x | x in log :: x.group != e.group
  {
    var all := log + [e];
    forall i, j | 0 <= i < j < |log| ensures log[i].group != log[j].group {
      assert all[i].group != all[j].group;
    }
    forall x | x in log ensures x.group != e.group {
      var i :| 0 <= i < |log| && log[i] == x;
      assert all[i].group != all[|log|].group;
    }
  }

  lemma {:induction false} ErrorsAreUnanswered(before: Tables, tokens: seq<InvalidToken>, verdict: Group -> Verdict,
                                               log: seq<Exec>, done: set<Group>)
    requires Distinct(log) && done == (set e | e in log && !Answered(before, verdict, e.group) :: e.group)
    requires forall e | e in log :: e.size == |GroupTokens(tokens, e.group.0, e.group.1)|
    requires forall e | e in log :: Errors()(e) == if Answered(before, verdict, e.group) then 0 else e.size
    ensures Sum(Errors(), log) == |Select(tokens, done)|
  {
    if log == [] {
      assert done == {};
      SelectNone(tokens);
    } else {
      var init, e := log[..|log| - 1], log[|log| - 1];
      assert log == init + [e];
      var rest := set x | x in init && !Answered(before, verdict, x.group) :: x.group;
      LastGroupIsNew(init, e);
      ErrorsAreUnanswered(before, tokens, verdict, init, rest);
      SumAppend(Errors(), init, e);
      if Answered(before, verdict, e.group) {
        assert done == rest;
      } else {
        assert done == rest + {(e.group.0, e.group.1)};
        SelectSize(tokens, rest, e.group.0, e.group.1);
      }
    }
  }

  /** Over a flush, the error count grows by exactly the tokens of the groups not answered. */
  lemma FlushErrors(before: Tables, after: Tables, tokens: seq<InvalidToken>,
                    verdict: Group -> Verdict, log: seq<Exec>)
    requires Flushed(before, after, tokens, verdict, log) && AllPlain(tokens)
    requires forall t | t in tokens :: KnownPlatform(t)
    ensures Sum(Errors(), log)
         == |Select(tokens, set t | t in tokens && !Answered(before, verdict, GroupOf(t)) :: GroupOf(t))|
  {
    forall e | e in log
      ensures e.size == |GroupTokens(tokens, e.group.0, e.group.1)|
      ensures Errors()(e) == if Answered(before, verdict, e.group) then 0 else e.size
    {
      FlushCountsFairly(before, after, tokens, verdict, log, e);
    }
    var failed := set t | t in tokens && !Answered(before, verdict, GroupOf(t)) :: GroupOf(t);
    forall g ensures g in failed <==> exists e :: e in log && !Answered(before, verdict, e.group) && e.group == g {
      assert g in GroupsOf(tokens) <==> exists e :: e in log && e.group == g;
    }
    assert failed == set e | e in log && !Answered(before, verdict, e.group) :: e.group;
    ErrorsAreUnanswered(before, tokens, verdict, log, failed);
  }

  // ---------- The handler ----------

  /** The connection to Postgres, and the tables behind it. */
  class Database {
    var tables: Tables

    constructor (tables: Tables)
      ensures this.tables == tables
    {
      this.tables := tables;
    }

    method Exec(query: string, params: seq<string>, verdict: Verdict) returns (result: ExecResult)
      modifies this
      ensures (result, tables) == Executed(old(tables), query, params, verdict)
    {
      var r := Executed(tables, query, params, verdict);
      result, tables := r.0, r.1;
    }
  }

  /** The buffer after one more token, and the batch that this flushes, if any. */
  function Buffered(bufferSize: int, buffer: seq<InvalidToken>, t: InvalidToken)
    : (seq<InvalidToken>, seq<seq<InvalidToken>>)
  {
    var longer := buffer + [t];
    if |longer| >= bufferSize then ([], [longer]) else (longer, [])
  }

  class Handler {
    const db: Database
    const bufferSize: int
    var buffer: seq<InvalidToken>
    // The counters sent to StatsD.
    var success: nat
    var nonexistent: nat
    var errors: nat
    // The executions so far, the flushed batches and the tokens received.
    ghost var log: seq<Exec>
    ghost var batches: seq<seq<InvalidToken>>
    ghost var received: seq<InvalidToken>

    /** The counters agree with the executions, no token is lost or reordered, and every flushed
        token was counted in exactly one execution. */
    ghost predicate Valid()
      reads this
    {
      && CountersAgree()
      && Concat(batches) + buffer == received
      && Sum(Size(), log) == |Concat(batches)|
      && (forall t | t in buffer :: KnownPlatform(t))
      && |buffer| < Limit(bufferSize)
      && forall b | b in batches :: |b| <= Limit(bufferSize)
    }

    ghost predicate CountersAgree()
      reads this
    {
      success == Sum(Successes(), log) && nonexistent == Sum(Nonexistents(), log) && errors == Sum(Errors(), log)
    }

    constructor (db: Database, bufferSize: int)
      ensures Valid() && this.db == db && this.bufferSize == bufferSize
      ensures buffer == [] && log == [] && batches == [] && received == []
    {
      this.db := db;
      this.bufferSize := bufferSize;
      buffer, log, batches, received := [], [], [], [];
      success, nonexistent, errors := 0, 0, 0;
    }

    /** One statement for one group; an error is counted and the group dropped. */
    method DeleteTokensFromGame(tokens: seq<string>, game: string, platform: string, verdict: Verdict)
      requires CountersAgree()
      modifies this`success, this`nonexistent, this`errors, this`log, db
      ensures CountersAgree()
      ensures var r := Executed(old(db.tables), D.Statement(TableOf(game, platform), |tokens|), tokens, verdict);
        && db.tables == r.1
        && log == old(log) + [Exec((game, platform), |tokens|, r.0)]
      ensures Plain(TableOf(game, platform)) && tokens != [] ==>
        var lost := Lost(old(db.tables), db.tables, TableOf(game, platform));
        if verdict.Perform? && TableOf(game, platform) in old(db.tables) then
          && success == old(success) + lost
          && nonexistent == old(nonexistent) + (if lost < |tokens| then |tokens| - lost else 0)
          && errors == old(errors)
        else
          success == old(success) && nonexistent == old(nonexistent) && errors == old(errors) + |tokens|
    {
      if Plain(TableOf(game, platform)) {
        StatementPurges(db.tables, TableOf(game, platform), tokens, verdict);
      }
      var query, params := D.Build(tokens, game + "_" + platform);
      var result := db.Exec(query, params, verdict);
      ghost var e := Exec((game, platform), |tokens|, result);
      SumAppend(Successes(), log, e);
      SumAppend(Nonexistents(), log, e);
      SumAppend(Errors(), log, e);
      log := log + [e];
      if result == Failed {
        errors := errors + |tokens|;
        return;
      }
      if result == NoRows {
        nonexistent := nonexistent + |tokens|;
        return;
      }
      if result.rows < |tokens| {
        nonexistent := nonexistent + (|tokens| - result.rows);
      }
      success := success + result.rows;
    }

    /** One turn of the inner loop. */
    method DeleteGroup(group: seq<string>, game: string, platform: string, verdict: Group -> Verdict,
                       ghost tokens: seq<InvalidToken>, ghost before: Tables, ghost done: set<Group>, ghost start: nat)
      requires CountersAgree() && start <= |log|
      requires forall t | t in tokens :: KnownPlatform(t)
      requires platform == APNS_PLATFORM || platform == GCM_PLATFORM
      requires group == GroupTokens(tokens, game, platform) != [] && (game, platform) !in done
      requires Account(before, db.tables, tokens, done, verdict, log[start..])
      modifies this`success, this`nonexistent, this`errors, this`log, db
      ensures CountersAgree() && start <= |log| && log[..start] == old(log[..start])
      ensures Account(before, db.tables, tokens, done + {(game, platform)}, verdict, log[start..])
    {
      ghost var tables, executed := db.tables, log[start..];
      AccountGrows(before, tables, tokens, done, verdict, executed, game, platform,
                   Executed(tables, D.Statement(TableOf(game, platform), |group|), group, verdict((game, platform))));
      DeleteTokensFromGame(group, game, platform, verdict((game, platform)));
      assert log[start..] == executed + [log[|log| - 1]];
    }

    /** The inner loop of a flush: the games of one platform, in any order. */
    method DeleteGames(games: map<string, seq<string>>, platform: string, verdict: Group -> Verdict,
                       ghost tokens: seq<InvalidToken>, ghost before: Tables, ghost done: set<Group>, ghost start: nat)
      requires CountersAgree() && start <= |log|
      requires forall t | t in tokens :: KnownPlatform(t)
      requires platform == APNS_PLATFORM || platform == GCM_PLATFORM
      requires forall g | g in games :: games[g] == GroupTokens(tokens, g, platform) != []
      requires done * GroupsOfPlatform(games.Keys, platform) == {}
      requires Account(before, db.tables, tokens, done, verdict, log[start..])
      modifies this`success, this`nonexistent, this`errors, this`log, db
      ensures CountersAgree() && start <= |log| && log[..start] == old(log[..start])
      ensures Account(before, db.tables, tokens, done + GroupsOfPlatform(games.Keys, platform), verdict, log[start..])
    {
      var rest := games.Keys;
      assert done + GroupsOfPlatform(games.Keys - rest, platform) == done;
      while rest != {}
        invariant rest <= games.Keys
        invariant CountersAgree() && start <= |log| && log[..start] == old(log[..start])
        invariant Account(before, db.tables, tokens, done + GroupsOfPlatform(games.Keys - rest, platform),
                          verdict, log[start..])
      {
        var game :| game in rest;
        OneMoreGame(games.Keys, games.Keys - rest, game, platform, done);
        DeleteGroup(games[game], game, platform, verdict, tokens, before,
                    done + GroupsOfPlatform(games.Keys - rest, platform), start);
        assert games.Keys - (rest - {game}) == (games.Keys - rest) + {game};
        rest := rest - {game};
      }
      assert games.Keys - {} == games.Keys;
    }

    /** One turn of the outer loop. */
    method DeletePlatform(m: Groups, platform: string, verdict: Group -> Verdict,
                          ghost tokens: seq<InvalidToken>, ghost before: Tables,
                          ghost done: set<string>, ghost start: nat)
      requires CountersAgree() && start <= |log|
      requires Splits(m, tokens) && forall t | t in tokens :: KnownPlatform(t)
      requires platform in m && platform !in done
      requires Account(before, db.tables, tokens, GroupsIn(m, done), verdict, log[start..])
      modifies this`success, this`nonexistent, this`errors, this`log, db
      ensures CountersAgree() && start <= |log| && log[..start] == old(log[..start])
      ensures Account(before, db.tables, tokens, GroupsIn(m, done + {platform}), verdict, log[start..])
    {
      GroupsInOneMore(m, done, platform);
      SplitsPlatform(m, tokens, platform);
      DeleteGames(m[platform], platform, verdict, tokens, before, GroupsIn(m, done), start);
    }

    /** A flush: every group of the tokens in turn, the platforms and the games in any order. */
    method DeleteTokens(tokens: seq<InvalidToken>, verdict: Group -> Verdict)
      requires CountersAgree()
      requires forall t | t in tokens :: KnownPlatform(t)
      modifies this`success, this`nonexistent, this`errors, this`log, db
      ensures CountersAgree() && |old(log)| <= |log| && log[..|old(log)|] == old(log)
      ensures Flushed(old(db.tables), db.tables, tokens, verdict, log[|old(log)|..])
    {
      var m := SplitTokens(tokens);
      ghost var start, before := |log|, db.tables;
      AccountStarts(before, tokens, verdict);
      assert log[start..] == [];
      assert m.Keys - m.Keys == {} && GroupsIn(m, {}) == {};
      var rest := m.Keys;
      while rest != {}
        invariant rest <= m.Keys
        invariant CountersAgree() && start <= |log| && log[..start] == old(log)
        invariant Account(before, db.tables, tokens, GroupsIn(m, m.Keys - rest), verdict, log[start..])
      {
        var platform :| platform in rest;
        DeletePlatform(m, platform, verdict, tokens, before, m.Keys - rest, start);
        assert m.Keys - (rest - {platform}) == (m.Keys - rest) + {platform};
        rest := rest - {platform};
      }
      assert m.Keys - {} == m.Keys;
      GroupsInAll(m, tokens);
      AccountCloses(before, db.tables, tokens, GroupsIn(m, m.Keys), verdict, log[start..]);
    }

    /** Flushes the buffer and empties it. */
    method Flush(verdict: Group -> Verdict)
      requires CountersAgree() && Concat(batches) + buffer == received && Sum(Size(), log) == |Concat(batches)|
      requires forall t | t in buffer :: KnownPlatform(t)
      requires |buffer| <= Limit(bufferSize) && forall b | b in batches :: |b| <= Limit(bufferSize)
      modifies this`success, this`nonexistent, this`errors, this`log, this`buffer, this`batches, db
      ensures Valid()
      ensures buffer == [] && batches == old(batches) + [old(buffer)]
      ensures |old(log)| <= |log| && log[..|old(log)|] == old(log)
      ensures Flushed(old(db.tables), db.tables, old(buffer), verdict, log[|old(log)|..])
    {
      ghost var start := log;
      DeleteTokens(buffer, verdict);
      SizesKeepUp(start, log, batches, buffer);
      batches := batches + [buffer];
      buffer := [];
    }

    /** A token arrives; a full buffer is flushed. */
    method Receive(t: InvalidToken, verdict: Group -> Verdict)
      requires Valid() && KnownPlatform(t)
      modifies this, db
      ensures Valid() && received == old(received) + [t]
      ensures var (kept, flushed) := Buffered(bufferSize, old(buffer), t);
        buffer == kept && batches == old(batches) + flushed
      ensures |old(log)| <= |log| && log[..|old(log)|] == old(log)
      ensures if |old(buffer)| + 1 >= bufferSize
              then Flushed(old(db.tables), db.tables, old(buffer) + [t], verdict, log[|old(log)|..])
              else db.tables == old(db.tables) && log == old(log)
    {
      buffer := buffer + [t];
      received := received + [t];
      assert Concat(batches) + buffer == received;
      if |buffer| >= bufferSize {
        Flush(verdict);
      } else {
        assert batches == old(batches) + [];
      }
    }

    /** The flush timer fires. */
    method Tick(verdict: Group -> Verdict)
      requires Valid()
      modifies this, db
      ensures Valid() && received == old(received)
      ensures buffer == [] && batches == old(batches) + [old(buffer)]
      ensures |old(log)| <= |log| && log[..|old(log)|] == old(log)
      ensures Flushed(old(db.tables), db.tables, old(buffer), verdict, log[|old(log)|..])
    {
      Flush(verdict);
    }
  }

  /** A buffer of size 0 or less is flushed at every token, like one of size 1. */
  function Limit(bufferSize: int): nat {
    if bufferSize < 1 then 1 else bufferSize
  }

  function Concat<T>(batches: seq<seq<T>>): seq<T> {
    if batches == [] then [] else Concat(batches[..|batches| - 1]) + batches[|batches| - 1]
  }

  lemma ConcatAppend<T>(batches: seq<seq<T>>, b: seq<T>)
    ensures Concat(batches + [b]) == Concat(batches) + b
  {
    assert (batches + [b])[..|batches|] == batches;
  }

  lemma {:induction false} SumConcat<T>(f: T -> nat, s: seq<T>, t: seq<T>)
    ensures Sum(f, s + t) == Sum(f, s) + Sum(f, t)
  {
    if s == [] {
      assert s + t == t;
    } else {
      assert (s + t)[1..] == s[1..] + t;
      SumConcat(f, s[1..], t);
    }
  }
}
