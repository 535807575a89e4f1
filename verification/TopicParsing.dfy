/** What the topic expression tries, and in which order: exactly the games, every longer one before
    a shorter one. Hence the parser finds the longest game, and inverts the printers. */
module TopicParsing {
  import opened Topic
  import opened Wrappers

  // ---------- The order of trying, without the expression ----------

  function RunEnd(s: string, i: nat): (hi: nat)
    requires i <= |s|
    ensures i <= hi <= |s| && (hi < |s| ==> !IsWord(s[hi]))
    ensures forall k | i <= k < hi :: IsWord(s[k])
    decreases |s| - i
  {
    if i < |s| && IsWord(s[i]) then RunEnd(s, i + 1) else i
  }

  lemma {:induction false} RunEndInside(s: string, i: nat, k: nat)
    requires i <= |s| && i <= k <= RunEnd(s, i)
    ensures RunEnd(s, k) == RunEnd(s, i)
    decreases k - i
  {
    if i < k {
      RunEndInside(s, i + 1, k);
    }
  }

  function Down(hi: nat, lo: nat): (d: seq<nat>)
    ensures forall k | 0 <= k < |d| :: lo <= d[k] <= hi
    decreases hi
  {
    if hi < lo then [] else if hi == 0 then [0] else [hi] + Down(hi - 1, lo)
  }

  lemma {:induction false} DownEnd(hi: nat, lo: nat)
    requires lo <= hi
    ensures Down(hi, lo) == Down(hi, lo + 1) + [lo]
    decreases hi
  {
    if hi > lo {
      DownEnd(hi - 1, lo);
    }
  }

  /** A greedy run of word characters is tried from its full length downwards. */
  lemma {:induction false} StarWordEnds(s: string, i: nat)
    requires i <= |s|
    ensures Ends(Star(Word), s, i) == Down(RunEnd(s, i), i)
    decreases |s| - i
  {
    if i < |s| && IsWord(s[i]) {
      assert Ends(Word, s, i) == [i + 1];
      assert EndsFrom(Star(Word), s, i, [i + 1], true) == Ends(Star(Word), s, i + 1) + [];
      StarWordEnds(s, i + 1);
      DownEnd(RunEnd(s, i), i);
    } else {
      assert Ends(Word, s, i) == [];
      assert EndsFrom(Star(Word), s, i, [], true) == [];
      DownEnd(i, i);
    }
  }

  lemma WordsEnds(s: string, i: nat)
    requires i <= |s|
    ensures Ends(WORDS, s, i) == Down(RunEnd(s, i), i + 1)
  {
    if i < |s| && IsWord(s[i]) {
      assert Ends(Word, s, i) == [i + 1];
      assert EndsFrom(Star(Word), s, i, [i + 1], false) == Ends(Star(Word), s, i + 1) + [];
      StarWordEnds(s, i + 1);
    }
  }

  /** Rows hi down to lo, one after the other. */
  function Concat(rows: seq<seq<nat>>, hi: nat, lo: nat): seq<nat>
    requires hi < |rows|
    decreases hi
  {
    if hi < lo then [] else rows[hi] + if hi == 0 then [] else Concat(rows, hi - 1, lo)
  }

  lemma {:induction false} ConcatEnd(rows: seq<seq<nat>>, hi: nat, lo: nat)
    requires lo <= hi < |rows|
    ensures Concat(rows, hi, lo) == Concat(rows, hi, lo + 1) + rows[lo]
    decreases hi
  {
    if hi > lo {
      ConcatEnd(rows, hi - 1, lo);
    }
  }

  lemma {:induction false} ConcatMembers(rows: seq<seq<nat>>, hi: nat, lo: nat, e: nat)
    requires hi < |rows|
    ensures e in Concat(rows, hi, lo) <==> exists k: nat | lo <= k <= hi :: e in rows[k]
    decreases hi
  {
    if lo <= hi {
      var rest := if hi == 0 then [] else Concat(rows, hi - 1, lo);
      assert Concat(rows, hi, lo) == rows[hi] + rest;
      if hi > 0 {
        ConcatMembers(rows, hi - 1, lo, e);
      }
    }
  }

  /** The ends of a game that starts at i: cut its run of word characters ever shorter; row k lists
      what a cut at k leads to. */
  function Games(s: string, rows: seq<seq<nat>>, i: nat): seq<nat>
    requires |rows| == |s| + 1 && i <= |s|
  {
    Concat(rows, RunEnd(s, i), i + 1)
  }

  /** After a cut, go on behind a separator, if there is one, before settling for the cut. */
  function After(s: string, rows: seq<seq<nat>>, k: nat): seq<nat>
    requires |rows| == |s| + 1 && k <= |s|
  {
    if k < |s| && IsSeparator(s[k]) then Games(s, rows, k + 1) else []
  }

  predicate RowOk(s: string, rows: seq<seq<nat>>, k: nat)
    requires |rows| == |s| + 1 && k <= |s|
  {
    rows[k] == After(s, rows, k) + [k]
  }

  ghost predicate Table(s: string, rows: seq<seq<nat>>) {
    |rows| == |s| + 1 && forall k {:trigger RowOk(s, rows, k)} | 0 <= k <= |s| :: RowOk(s, rows, k)
  }

  // ---------- The expression tries the same ends in the same order ----------

  predicate IsRow(re: Regex, s: string, rows: seq<seq<nat>>, k: nat)
    requires |rows| == |s| + 1 && k <= |s|
  {
    rows[k] == Ends(re, s, k)
  }

  ghost predicate RowsOf(re: Regex, s: string, rows: seq<seq<nat>>) {
    |rows| == |s| + 1 && forall k {:trigger IsRow(re, s, rows, k)} | 0 <= k <= |s| :: IsRow(re, s, rows, k)
  }

  function Rows(s: string): (rows: seq<seq<nat>>)
    ensures RowsOf(MORE, s, rows)
  {
    seq(|s| + 1, k requires 0 <= k <= |s| => Ends(MORE, s, k))
  }

  lemma EndsFromFirst(re: Regex, s: string, i: nat, starts: seq<nat>, advance: bool)
    requires i <= |s| && starts != [] && starts[0] > i && forall k | 0 <= k < |starts| :: i <= starts[k] <= |s|
    ensures EndsFrom(re, s, i, starts, advance) == Ends(re, s, starts[0]) + EndsFrom(re, s, i, starts[1..], advance)
  {
  }

  lemma DownStart(hi: nat, lo: nat)
    requires 0 < lo <= hi
    ensures Down(hi, lo) != [] && Down(hi, lo)[0] == hi && Down(hi, lo)[1..] == Down(hi - 1, lo)
  {
  }

  lemma EndsFromHighest(re: Regex, s: string, i: nat, hi: nat, lo: nat, advance: bool)
    requires i < lo <= hi <= |s|
    ensures EndsFrom(re, s, i, Down(hi, lo), advance) == Ends(re, s, hi) + EndsFrom(re, s, i, Down(hi - 1, lo), advance)
  {
    DownStart(hi, lo);
    EndsFromFirst(re, s, i, Down(hi, lo), advance);
  }

  lemma EndsFromRow(re: Regex, s: string, row: seq<nat>, rest: seq<nat>, i: nat, hi: nat, lo: nat, advance: bool)
    requires i < lo <= hi <= |s| && row == Ends(re, s, hi)
    requires rest == EndsFrom(re, s, i, Down(hi - 1, lo), advance)
    ensures EndsFrom(re, s, i, Down(hi, lo), advance) == row + rest
  {
    EndsFromHighest(re, s, i, hi, lo, advance);
  }

  lemma ConcatRow(rows: seq<seq<nat>>, hi: nat, lo: nat)
    requires 0 < lo <= hi < |rows|
    ensures rows[hi] + Concat(rows, hi - 1, lo) == Concat(rows, hi, lo)
  {
  }

  lemma NoStarts(re: Regex, s: string, i: nat, hi: nat, lo: nat, advance: bool)
    requires hi < lo && i <= |s|
    ensures EndsFrom(re, s, i, Down(hi, lo), advance) == []
  {
  }

  lemma {:induction false} EndsFromDown(re: Regex, s: string, rows: seq<seq<nat>>,
                                        i: nat, hi: nat, lo: nat, advance: bool)
    requires RowsOf(re, s, rows) && i < lo && hi <= |s| && i <= |s|
    ensures EndsFrom(re, s, i, Down(hi, lo), advance) == Concat(rows, hi, lo)
    decreases hi
  {
    if hi < lo {
      NoStarts(re, s, i, hi, lo, advance);
    } else {
      assert IsRow(re, s, rows, hi);
      EndsFromDown(re, s, rows, i, hi - 1, lo, advance);
      EndsFromRow(re, s, rows[hi], Concat(rows, hi - 1, lo), i, hi, lo, advance);
      ConcatRow(rows, hi, lo);
    }
  }

  lemma GameEnds(s: string, i: nat)
    requires i <= |s|
    ensures Ends(GAME, s, i) == Games(s, Rows(s), i)
  {
    WordsEnds(s, i);
    EndsFromDown(MORE, s, Rows(s), i, RunEnd(s, i), i + 1, false);
  }

  /** More of a game is a separator and a game, or nothing. */
  lemma MoreEnds(s: string, k: nat)
    requires k <= |s|
    ensures RowOk(s, Rows(s), k)
  {
    var tail := Cat(Separator, Plus(Word));
    if k < |s| && IsSeparator(s[k]) {
      assert Ends(Separator, s, k) == [k + 1];
      assert EndsFrom(WORDS, s, k, [k + 1], false) == Ends(WORDS, s, k + 1) + [];
      assert Ends(tail, s, k) == Ends(WORDS, s, k + 1);
      WordsEnds(s, k + 1);
      EndsFromDown(MORE, s, Rows(s), k, RunEnd(s, k + 1), k + 2, true);
      assert Ends(MORE, s, k) == EndsFrom(MORE, s, k, Ends(tail, s, k), true) + [k];
    } else {
      assert Ends(Separator, s, k) == [];
      assert Ends(tail, s, k) == [];
      assert Ends(MORE, s, k) == EndsFrom(MORE, s, k, [], true) + [k];
    }
  }

  lemma RowsTable(s: string)
    ensures Table(s, Rows(s))
  {
    forall k | 0 <= k <= |s| ensures RowOk(s, Rows(s), k) {
      MoreEnds(s, k);
    }
  }

  // ---------- What is tried ----------

  lemma Cut(s: string, rows: seq<seq<nat>>, i: nat, e: nat) returns (k: nat)
    requires Table(s, rows) && i <= |s| && e in Games(s, rows, i)
    ensures i < k <= RunEnd(s, i) && (e == k || e in After(s, rows, k))
  {
    ConcatMembers(rows, RunEnd(s, i), i + 1, e);
    k :| i < k <= RunEnd(s, i) && e in rows[k];
    assert RowOk(s, rows, k);
  }

  lemma {:induction false} TriedBeyond(s: string, rows: seq<seq<nat>>, i: nat, e: nat)
    requires Table(s, rows) && i <= |s| && e in Games(s, rows, i)
    ensures i < e <= |s|
    decreases |s| - i
  {
    var k := Cut(s, rows, i, e);
    if e != k {
      TriedBeyond(s, rows, k + 1, e);
    }
  }

  lemma JoinedIsGame(a: string, sep: char, g: string)
    requires a != [] && (forall k | 0 <= k < |a| :: IsWord(a[k])) && IsSeparator(sep) && IsGame(g)
    ensures IsGame(a + [sep] + g)
  {
    var t := a + [sep] + g;
    forall k | 0 <= k < |t| ensures Inside(t, k) {
      if k > |a| {
        assert Inside(g, k - |a| - 1);
      }
    }
  }

  lemma WordsAreGame(a: string)
    requires a != [] && forall k | 0 <= k < |a| :: IsWord(a[k])
    ensures IsGame(a)
  {
  }

  lemma GameAfterHyphen(g: string, h: nat)
    requires IsGame(g) && 0 < h < |g| && !IsWord(g[h])
    ensures g[h] == '-' && h + 1 < |g| && IsGame(g[h + 1..])
  {
    assert Inside(g, h);
    var rest := g[h + 1..];
    forall k | 0 <= k < |rest| ensures Inside(rest, k) {
      assert Inside(g, h + 1 + k);
    }
  }

  lemma RunIsWords(s: string, i: nat, k: nat)
    requires i <= |s| && i < k <= RunEnd(s, i)
    ensures s[i..k] != [] && forall j | 0 <= j < |s[i..k]| :: IsWord(s[i..k][j])
  {
  }

  lemma {:induction false} TriedIsGame(s: string, rows: seq<seq<nat>>, i: nat, e: nat)
    requires Table(s, rows) && i <= e <= |s| && e in Games(s, rows, i)
    ensures IsGame(s[i..e])
    decreases |s| - i
  {
    var k := Cut(s, rows, i, e);
    RunIsWords(s, i, k);
    if e == k {
      WordsAreGame(s[i..e]);
    } else {
      TriedBeyond(s, rows, k + 1, e);
      TriedIsGame(s, rows, k + 1, e);
      JoinedIsGame(s[i..k], s[k], s[k + 1..e]);
      assert s[i..e] == s[i..k] + [s[k]] + s[k + 1..e];
    }
  }

  lemma CutIsTried(s: string, rows: seq<seq<nat>>, i: nat, k: nat, e: nat)
    requires Table(s, rows) && i <= |s| && i < k <= RunEnd(s, i) && (e == k || e in After(s, rows, k))
    ensures e in Games(s, rows, i)
  {
    assert RowOk(s, rows, k) && e in rows[k];
    ConcatMembers(rows, RunEnd(s, i), i + 1, e);
  }

  lemma {:induction false} GameIsTried(s: string, rows: seq<seq<nat>>, i: nat, e: nat)
    requires Table(s, rows) && i <= e <= |s| && IsGame(s[i..e])
    ensures e in Games(s, rows, i)
    decreases |s| - i
  {
    var g, hi := s[i..e], RunEnd(s, i);
    assert g[0] == s[i];
    if e <= hi {
      CutIsTried(s, rows, i, e, e);
    } else {
      assert g[hi - i] == s[hi];
      GameAfterHyphen(g, hi - i);
      assert g[hi - i + 1..] == s[hi + 1..e];
      GameIsTried(s, rows, hi + 1, e);
      CutIsTried(s, rows, i, hi, e);
    }
  }

  /** The expression tries exactly the prefixes that are games. */
  lemma TriesTheGames(s: string, i: nat, e: nat)
    requires i <= e <= |s|
    ensures e in Ends(GAME, s, i) <==> IsGame(s[i..e])
  {
    RowsTable(s);
    GameEnds(s, i);
    if e in Games(s, Rows(s), i) {
      TriedIsGame(s, Rows(s), i, e);
    } else if IsGame(s[i..e]) {
      GameIsTried(s, Rows(s), i, e);
    }
  }

  // ---------- The order ----------

  /** Whenever an end is tried, every longer one that is tried at all was tried before. */
  ghost predicate LongestFirst(ends: seq<nat>) {
    forall j, e: nat | 0 <= j < |ends| && e in ends && e > ends[j] :: e in ends[..j]
  }

  lemma LongestFirstAppend(a: seq<nat>, d: seq<nat>, lo: nat)
    requires LongestFirst(a) && (forall e | e in a :: e > lo) && (forall e | e in d :: e in a)
    ensures LongestFirst(a + (d + [lo]))
  {
    var all := a + (d + [lo]);
    forall j, e: nat | 0 <= j < |all| && e in all && e > all[j] ensures e in all[..j] {
      assert e in a || e == lo;
      assert all[j] in a || all[j] in d || all[j] == lo;
      if j < |a| {
        assert all[..j] == a[..j];
      } else {
        assert all[..j] == a + (d + [lo])[..j - |a|];
      }
    }
  }

  lemma LongestFirstThen(d: seq<nat>, lo: nat)
    requires LongestFirst(d) && forall e | e in d :: e > lo
    ensures LongestFirst(d + [lo])
  {
    LongestFirstAppend(d, [], lo);
    assert d + ([] + [lo]) == d + [lo];
  }

  lemma AfterBeyond(s: string, rows: seq<seq<nat>>, k: nat)
    requires Table(s, rows) && k <= |s|
    ensures forall e | e in After(s, rows, k) :: e > k
  {
    forall e | e in After(s, rows, k) ensures e > k {
      TriedBeyond(s, rows, k + 1, e);
    }
  }

  lemma ShorterCutsAdd(rows: seq<seq<nat>>, hi: nat, lo: nat)
    requires lo <= hi < |rows|
    ensures forall e | e in Concat(rows, hi, lo + 1) :: e in Concat(rows, hi, lo)
  {
    ConcatEnd(rows, hi, lo);
  }

  /** A cut inside a run of word characters leads to nothing that longer cuts did not lead to. */
  lemma InnerCutsAddNothing(s: string, rows: seq<seq<nat>>, hi: nat, lo: nat)
    requires |rows| == |s| + 1 && lo < hi <= |s| && hi == RunEnd(s, lo + 1)
    ensures forall e | e in After(s, rows, lo) :: e in Concat(rows, hi, lo + 1)
  {
    ShorterCutsAdd(rows, hi, lo + 1);
    assert After(s, rows, lo) == [] || After(s, rows, lo) == Concat(rows, hi, lo + 2);
  }

  lemma {:induction false} CutsLongestFirst(s: string, rows: seq<seq<nat>>, i: nat, lo: nat)
    requires Table(s, rows) && i < |s| && i < lo <= RunEnd(s, i)
    ensures var tried := Concat(rows, RunEnd(s, i), lo); LongestFirst(tried) && forall e | e in tried :: e >= lo
    decreases |s| - i, RunEnd(s, i) - lo
  {
    var hi := RunEnd(s, i);
    var d := After(s, rows, lo);
    ConcatEnd(rows, hi, lo);
    assert RowOk(s, rows, lo);
    AfterBeyond(s, rows, lo);
    if lo == hi {
      assert Concat(rows, hi, lo) == d + [lo];
      if lo < |s| && IsSeparator(s[lo]) {
        GameLongestFirst(s, rows, lo + 1);
      }
      LongestFirstThen(d, lo);
    } else {
      CutsLongestFirst(s, rows, i, lo + 1);
      RunEndInside(s, i, lo + 1);
      InnerCutsAddNothing(s, rows, hi, lo);
      LongestFirstAppend(Concat(rows, hi, lo + 1), d, lo);
    }
  }

  lemma {:induction false} GameLongestFirst(s: string, rows: seq<seq<nat>>, i: nat)
    requires Table(s, rows) && i <= |s|
    ensures LongestFirst(Games(s, rows, i))
    decreases |s| - i, |s| + 1
  {
    if i < RunEnd(s, i) {
      CutsLongestFirst(s, rows, i, i + 1);
    }
  }

  // ---------- The parser finds the longest game ----------

  lemma {:induction false} FirstMatchAt(s: string, ends: seq<nat>) returns (j: nat)
    requires FirstMatch(s, ends).Some?
    ensures j < |ends| && ends[j] == FirstMatch(s, ends).value && PlatformAt(s, ends[j]).Some?
    ensures forall e | e in ends[..j] :: PlatformAt(s, e).None?
  {
    if PlatformAt(s, ends[0]).Some? {
      j := 0;
    } else {
      j := FirstMatchAt(s, ends[1..]);
      j := j + 1;
      assert ends[..j] == [ends[0]] + ends[1..][..j - 1];
    }
  }

  lemma {:induction false} NoMatch(s: string, ends: seq<nat>)
    requires FirstMatch(s, ends).None?
    ensures forall e | e in ends :: PlatformAt(s, e).None?
  {
    if ends != [] {
      NoMatch(s, ends[1..]);
    }
  }

  /** The topic announces platform p after game g. */
  predicate Announces(topic: string, g: string, p: string) {
    IsGame(g) && StartsAt(PUSH + g, topic, 0) && PlatformAt(topic, |PUSH| + |g|) == Some(p)
  }

  /** That is: the topic is the game in its place, a separator, a platform, and anything. */
  lemma AnnouncesIff(topic: string, g: string, p: string)
    ensures Announces(topic, g, p) <==>
      && IsGame(g) && (p == "gcm" || p == "apns" || p == "ios")
      && exists rest :: topic == "push-" + g + "-" + p + rest || topic == "push-" + g + "_" + p + rest
  {
    var e := |PUSH| + |g|;
    if Announces(topic, g, p) {
      assert topic[0..] == topic && topic[..e] == PUSH + g;
      var rest := topic[e + 1 + |p|..];
      assert topic[e + 1..] == p + rest;
      assert topic == PUSH + g + [topic[e]] + p + rest;
    }
    if rest :| IsGame(g) && (p == "gcm" || p == "apns" || p == "ios")
               && (topic == "push-" + g + "-" + p + rest || topic == "push-" + g + "_" + p + rest) {
      assert topic[0..] == topic && topic[..e] == PUSH + g && topic[e + 1..] == p + rest;
      PlatformRead(topic, e, p);
    }
  }

  lemma AnnouncedIsTried(topic: string, g: string, p: string)
    requires Announces(topic, g, p)
    ensures StartsAt(PUSH, topic, 0) && |PUSH| + |g| in Ends(GAME, topic, |PUSH|)
    ensures topic[|PUSH|..|PUSH| + |g|] == g
  {
    assert topic[0..] == topic;
    assert (PUSH + g)[|PUSH|..] == g;
    assert topic[..|PUSH| + |g|] == PUSH + g;
    TriesTheGames(topic, |PUSH|, |PUSH| + |g|);
  }

  lemma ParsedIsAnnounced(topic: string)
    requires Parse(topic).Some?
    ensures Announces(topic, Parse(topic).value.game, Parse(topic).value.platform)
  {
    var e := FirstMatch(topic, Ends(GAME, topic, |PUSH|)).value;
    var j := FirstMatchAt(topic, Ends(GAME, topic, |PUSH|));
    TriesTheGames(topic, |PUSH|, e);
    assert topic[0..] == topic;
    assert topic[..e] == PUSH + topic[|PUSH|..e];
  }

  lemma LongestWins(topic: string, g: string, p: string)
    requires Announces(topic, g, p)
    ensures Parse(topic).Some? && |Parse(topic).value.game| >= |g|
  {
    AnnouncedIsTried(topic, g, p);
    var ends := Ends(GAME, topic, |PUSH|);
    if FirstMatch(topic, ends).None? {
      NoMatch(topic, ends);
      assert false;
    }
    var j := FirstMatchAt(topic, ends);
    TriesTheGames(topic, |PUSH|, ends[j]);
    RowsTable(topic);
    GameEnds(topic, |PUSH|);
    GameLongestFirst(topic, Rows(topic), |PUSH|);
    assert ends[j] >= |PUSH| + |g|;
  }

  /** The parser returns the longest game that a platform follows, and fails only without one. */
  lemma ParsesTheLongestGame(topic: string, g: string, p: string)
    ensures Parse(topic) == Some(ParsedTopic(g, p)) <==>
      Announces(topic, g, p) && forall g', p' | Announces(topic, g', p') :: |g'| <= |g|
    ensures Parse(topic) == None ==> !Announces(topic, g, p)
  {
    if Announces(topic, g, p) {
      LongestWins(topic, g, p);
    }
    if Parse(topic).Some? {
      ParsedIsAnnounced(topic);
      var best := Parse(topic).value;
      forall g', p' | Announces(topic, g', p') ensures |g'| <= |best.game| {
        LongestWins(topic, g', p');
      }
      if Announces(topic, g, p) && |g| == |best.game| {
        AnnouncedIsTried(topic, g, p);
        AnnouncedIsTried(topic, best.game, best.platform);
      }
    }
  }

  lemma StartsWithFirst(text: string, s: string, i: nat)
    requires StartsAt(text, s, i) && text != []
    ensures i < |s| && s[i] == text[0]
  {
  }

  lemma PlatformLetter(s: string, e: nat)
    requires PlatformAt(s, e).Some?
    ensures e + 1 < |s| && (s[e + 1] == 'g' || s[e + 1] == 'a' || s[e + 1] == 'i')
  {
    StartsWithFirst(PlatformAt(s, e).value, s, e + 1);
  }

  lemma PlatformRead(s: string, e: nat, platform: string)
    requires IsPlatform(platform) && e < |s| && IsSeparator(s[e]) && StartsAt(platform, s, e + 1)
    ensures PlatformAt(s, e) == Some(platform)
  {
    StartsWithFirst(platform, s, e + 1);
    StartsWithFirst(PlatformAt(s, e).value, s, e + 1);
  }

  /** Where the parts of a printed topic are. */
  lemma Layout(game: string, sep: char, platform: string, kind: string)
    ensures var s, e := TopicOf(game, sep, platform, kind), |PUSH| + |game|;
      && StartsAt(PUSH + game, s, 0) && StartsAt(platform, s, e + 1)
      && |s| == e + 2 + |platform| + |kind| && s[e] == sep && s[e + 1 + |platform|] == '-'
      && (forall k | e < k <= e + |platform| :: s[k] == platform[k - e - 1])
      && (forall k | e + 1 + |platform| < k < |s| :: s[k] == kind[k - e - |platform| - 2])
  {
    var s, e := TopicOf(game, sep, platform, kind), |PUSH| + |game|;
    assert s[0..] == s == (PUSH + game) + ([sep] + platform + "-" + kind);
    assert s[e + 1..] == platform + ("-" + kind);
  }

  predicate Solid(text: string) {
    text != [] && forall k | 0 <= k < |text| :: !IsSeparator(text[k])
  }

  lemma PlatformsAreSolid(platform: string)
    requires IsPlatform(platform)
    ensures Solid(platform)
  {
  }

  lemma KindsAreSolid(kind: string)
    requires IsKind(kind)
    ensures Solid(kind) && kind[0] != 'g' && kind[0] != 'a' && kind[0] != 'i'
  {
  }

  /** After the announced platform comes one more separator, and no platform after it. */
  lemma OnlyOnePlatform(game: string, sep: char, platform: string, kind: string, e: nat)
    requires Solid(platform) && Solid(kind) && kind[0] != 'g' && kind[0] != 'a' && kind[0] != 'i'
    ensures e > |PUSH| + |game| ==> PlatformAt(TopicOf(game, sep, platform, kind), e).None?
  {
    var s := TopicOf(game, sep, platform, kind);
    var start := |PUSH| + |game| + 1;
    Layout(game, sep, platform, kind);
    assert s[start + |platform| + 1] == kind[0];
    if e >= start && PlatformAt(s, e).Some? {
      PlatformLetter(s, e);
    }
  }

  lemma PrintedIsAnnounced(game: string, sep: char, platform: string, kind: string)
    requires IsSeparator(sep) && IsPlatform(platform)
    ensures var s := TopicOf(game, sep, platform, kind);
      StartsAt(PUSH + game, s, 0) && PlatformAt(s, |PUSH| + |game|) == Some(platform)
  {
    Layout(game, sep, platform, kind);
    PlatformRead(TopicOf(game, sep, platform, kind), |PUSH| + |game|, platform);
  }

  lemma NoLongerGame(game: string, sep: char, platform: string, kind: string, g: string, p: string)
    requires Solid(platform) && Solid(kind) && kind[0] != 'g' && kind[0] != 'a' && kind[0] != 'i'
    requires Announces(TopicOf(game, sep, platform, kind), g, p)
    ensures |g| <= |game|
  {
    OnlyOnePlatform(game, sep, platform, kind, |PUSH| + |g|);
  }

  /** Parsing inverts the three printers exactly on the games of the expression, whatever
      separators and platform names the game itself contains. */
  lemma ParseInvertsPrint(game: string, sep: char, platform: string, kind: string)
    requires IsSeparator(sep) && IsPlatform(platform) && IsKind(kind)
    ensures Parse(TopicOf(game, sep, platform, kind)) == Some(ParsedTopic(game, platform)) <==> IsGame(game)
  {
    var s := TopicOf(game, sep, platform, kind);
    PrintedIsAnnounced(game, sep, platform, kind);
    ParsesTheLongestGame(s, game, platform);
    PlatformsAreSolid(platform);
    KindsAreSolid(kind);
    forall g', p' | Announces(s, g', p') ensures |g'| <= |game| {
      NoLongerGame(game, sep, platform, kind, g', p');
    }
  }

  lemma TopicsAsText(game: string, platform: string)
    ensures MessageTopic(game, platform, SINGLE) == "push-" + game + "_" + platform + "-single"
    ensures MessageTopic(game, platform, MASSIVE) == "push-" + game + "_" + platform + "-massive"
    ensures FeedbackTopic(game, platform) == "push-" + game + "-" + platform + "-feedbacks"
  {
  }

  /** The three formats as text: what the pushers subscribe to and what feedback is written to reads
      back as its game and platform, for exactly the games of the expression. */
  lemma TopicsReadBack(game: string, platform: string)
    requires platform == "gcm" || platform == "apns" || platform == "ios"
    ensures Parse("push-" + game + "_" + platform + "-single") == Some(ParsedTopic(game, platform)) <==> IsGame(game)
    ensures Parse("push-" + game + "_" + platform + "-massive") == Some(ParsedTopic(game, platform)) <==> IsGame(game)
    ensures Parse("push-" + game + "-" + platform + "-feedbacks") == Some(ParsedTopic(game, platform)) <==> IsGame(game)
  {
    ParseInvertsPrint(game, '_', platform, SINGLE);
    ParseInvertsPrint(game, '_', platform, MASSIVE);
    ParseInvertsPrint(game, '-', platform, FEEDBACKS);
    TopicsAsText(game, platform);
  }

  /** Games may contain the very things that end them; a hyphen may not stand at either end. */
  lemma SomeGames()
    ensures IsGame("sniper_gcm-2") && IsGame("a_-_b9") && IsGame("_")
    ensures !IsGame("") && !IsGame("-sniper") && !IsGame("sniper-") && !IsGame("sni--per") && !IsGame("sni.per")
  {
    assert !Inside("sniper-", 6) && !Inside("sni--per", 3) && !Inside("sni.per", 3);
    assert forall k | 0 <= k < 12 :: Inside("sniper_gcm-2", k);
    assert forall k | 0 <= k < 6 :: Inside("a_-_b9", k);
  }
}
