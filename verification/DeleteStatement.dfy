/** The DELETE statement of a group of tokens: its text, and what a reader of the text finds. */
module DeleteStatement {
  import opened Numerals
  import opened Wrappers

  const DELETE_FROM := "DELETE FROM "
  const WHERE_IN := " WHERE token IN ("

  /** The text from placeholder j to the end of a statement with n placeholders. */
  function Tail(j: nat, n: nat): string
    decreases n - j
  {
    if j >= n then ";"
    else "?" + Decimal(j) + (if j == n - 1 then ")" else ", ") + Tail(j + 1, n)
  }

  function Statement(table: string, n: nat): string {
    DELETE_FROM + table + WHERE_IN + Tail(0, n)
  }

  /** Writes the statement piece by piece while collecting its parameters. */
  method Build(tokens: seq<string>, table: string) returns (query: string, params: seq<string>)
    ensures query == Statement(table, |tokens|) && params == tokens
  {
    query := DELETE_FROM + table + WHERE_IN;
    params := [];
    var j := 0;
    while j < |tokens|
      invariant j <= |tokens| && params == tokens[..j]
      invariant query + Tail(j, |tokens|) == Statement(table, |tokens|)
    {
      ghost var before := query;
      query := query + "?" + Decimal(j);
      if j == |tokens| - 1 {
        query := query + ")";
      } else {
        query := query + ", ";
      }
      assert query + Tail(j + 1, |tokens|) == before + Tail(j, |tokens|);
      params := params + [tokens[j]];
      j := j + 1;
    }
    query := query + ";";
  }

  /** The statement of one token, and of two, as text. */
  lemma StatementAsText(table: string)
    ensures Statement(table, 1) == "DELETE FROM " + table + " WHERE token IN (?0);"
    ensures Statement(table, 2) == "DELETE FROM " + table + " WHERE token IN (?0, ?1);"
  {
    assert Decimal(0) == "0" && Decimal(1) == "1";
    assert Tail(0, 1) == "?0" + ")" + Tail(1, 1);
    assert Tail(1, 2) == "?1" + ")" + Tail(2, 2);
    assert Tail(0, 2) == "?0" + ", " + Tail(1, 2);
  }

  // ---------- Reading the statement ----------

  /** A DELETE over the rows of a table whose token equals one of the numbered parameters. */
  datatype Delete = Delete(table: string, indices: seq<nat>)

  function DigitsEnd(s: string, i: nat): (e: nat)
    requires i <= |s|
    ensures i <= e <= |s|
    decreases |s| - i
  {
    if i < |s| && IsDigit(s[i]) then DigitsEnd(s, i + 1) else i
  }

  /** A comma-separated list of placeholders, closed and ended. */
  function ReadList(s: string): Option<seq<nat>>
    decreases |s|
  {
    if |s| < 2 || s[0] != '?' || !IsDigit(s[1]) then None
    else
      var e := DigitsEnd(s, 1);
      var n := Value(s[1..e]);
      if s[e..] == ");" then Some([n])
      else if ", " <= s[e..] then
        match ReadList(s[e + 2..])
        case None => None
        case Some(rest) => Some([n] + rest)
      else None
  }

  function WordEnd(s: string, i: nat): (e: nat)
    requires i <= |s|
    ensures i <= e <= |s|
    decreases |s| - i
  {
    if i < |s| && s[i] != ' ' then WordEnd(s, i + 1) else i
  }

  function Read(s: string): Option<Delete> {
    if !(DELETE_FROM <= s) then None
    else
      var rest := s[|DELETE_FROM|..];
      var e := WordEnd(rest, 0);
      if !(WHERE_IN <= rest[e..]) then None
      else match ReadList(rest[e..][|WHERE_IN|..])
        case None => None
        case Some(indices) => Some(Delete(rest[..e], indices))
  }

  function Range(j: nat, n: nat): seq<nat>
    decreases n - j
  {
    if j >= n then [] else [j] + Range(j + 1, n)
  }

  lemma {:induction false} DigitsEndAfter(s: string, d: string, i: nat, t: string)
    requires i <= |d| && s == d + t && (forall k | i <= k < |d| :: IsDigit(d[k]))
    requires t != [] ==> !IsDigit(t[0])
    ensures DigitsEnd(s, i) == |d|
    decreases |d| - i
  {
    if i < |d| {
      DigitsEndAfter(s, d, i + 1, t);
    }
  }

  lemma TailStart(j: nat, n: nat)
    requires j < n
    ensures var d := "?" + Decimal(j); var s := Tail(j, n);
      && |s| >= 2 && s[0] == '?' && IsDigit(s[1]) && DigitsEnd(s, 1) == |d| && s[1..|d|] == Decimal(j)
      && s[|d|..] == (if j == n - 1 then ")" else ", ") + Tail(j + 1, n)
  {
    var d := "?" + Decimal(j);
    var t := (if j == n - 1 then ")" else ", ") + Tail(j + 1, n);
    assert Tail(j, n) == d + t;
    assert forall k | 1 <= k < |d| :: d[k] == Decimal(j)[k - 1];
    DigitsEndAfter(Tail(j, n), d, 1, t);
  }

  lemma {:induction false} ReadsTail(j: nat, n: nat)
    requires j < n
    ensures ReadList(Tail(j, n)) == Some(Range(j, n))
    decreases n - j
  {
    TailStart(j, n);
    ValueOfDecimal(j);
    var s := Tail(j, n);
    var e := DigitsEnd(s, 1);
    var rest := s[e..];
    if j == n - 1 {
      assert rest == ");";
      assert ReadList(s) == Some([j]);
      assert Range(j, n) == [j];
    } else {
      assert rest[..2] == ", " && rest[2..] == Tail(j + 1, n);
      ReadsTail(j + 1, n);
    }
  }

  lemma {:induction false} WordEndAt(s: string, w: string, i: nat, t: string)
    requires i <= |w| && s == w + t && (forall k | 0 <= k < |w| :: w[k] != ' ') && t != [] && t[0] == ' '
    ensures WordEnd(s, i) == |w|
    decreases |w| - i
  {
    if i < |w| {
      WordEndAt(s, w, i + 1, t);
    }
  }

  /** A statement reads back as its table and the placeholders ?0 to ?n-1 in order, exactly when
      the group is not empty; without tokens the list is never closed. */
  lemma ReadsStatement(table: string, n: nat)
    requires forall k | 0 <= k < |table| :: table[k] != ' '
    ensures Read(Statement(table, n)) == if n == 0 then None else Some(Delete(table, Range(0, n)))
  {
    var s := Statement(table, n);
    var rest := s[|DELETE_FROM|..];
    assert s[..|DELETE_FROM|] == DELETE_FROM;
    assert rest == table + (WHERE_IN + Tail(0, n));
    WordEndAt(rest, table, 0, WHERE_IN + Tail(0, n));
    assert rest[..|table|] == table && rest[|table|..] == WHERE_IN + Tail(0, n);
    assert rest[|table|..][|WHERE_IN|..] == Tail(0, n);
    if n > 0 {
      ReadsTail(0, n);
    }
  }
}
