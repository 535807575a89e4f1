/** The Kafka topic names: the regular expression that parses them, and the formats that print
    them. The expression is matched as Go's engine does: it backtracks, preferring at every choice
    the longer repetition, and the first complete match wins. */
module Topic {
  import opened Wrappers

  // ---------- Matching ----------

  /** A match starting at i ends at some position; `Ends` lists the possible ends in the order in
      which backtracking tries them. */
  datatype Regex =
    | Word                           // \w
    | Separator                      // [_-]
    | Cat(first: Regex, second: Regex)
    | Plus(body: Regex)              // greedy, one or more
    | Star(body: Regex)              // greedy, zero or more

  predicate IsWord(c: char) {
    'a' <= c <= 'z' || 'A' <= c <= 'Z' || '0' <= c <= '9' || c == '_'
  }

  predicate IsSeparator(c: char) {
    c == '-' || c == '_'
  }

  function Size(re: Regex): nat {
    match re
    case Cat(a, b) => 1 + Size(a) + Size(b)
    case Plus(a) => 3 + Size(a)
    case Star(a) => 1 + Size(a)
    case _ => 1
  }

  function Ends(re: Regex, s: string, i: nat): (ends: seq<nat>)
    requires i <= |s|
    ensures forall k | 0 <= k < |ends| :: i <= ends[k] <= |s|
    decreases |s| - i, Size(re), 0
  {
    match re
    case Word => if i < |s| && IsWord(s[i]) then [i + 1] else []
    case Separator => if i < |s| && IsSeparator(s[i]) then [i + 1] else []
    case Cat(a, b) => EndsFrom(b, s, i, Ends(a, s, i), false)
    case Plus(a) => EndsFrom(Star(a), s, i, Ends(a, s, i), false)
    case Star(a) => EndsFrom(Star(a), s, i, Ends(a, s, i), true) + [i]
  }

  /** The ends of re from each of the given starts in turn. A repetition takes no empty turn. */
  function EndsFrom(re: Regex, s: string, i: nat, starts: seq<nat>, advance: bool): (ends: seq<nat>)
    requires i <= |s| && forall k | 0 <= k < |starts| :: i <= starts[k] <= |s|
    ensures forall k | 0 <= k < |ends| :: i <= ends[k] <= |s|
    decreases |s| - i, Size(re) + (if advance then -1 else 0), 1 + |starts|
  {
    if starts == [] then []
    else
      var rest := EndsFrom(re, s, i, starts[1..], advance);
      if advance && starts[0] == i then rest else Ends(re, s, starts[0]) + rest
  }

  // ---------- The topic expression: ^push-([\w]+(?:[_-][\w]+)*)[-_](gcm|apns|ios) ----------

  const WORDS := Plus(Word)
  const MORE := Star(Cat(Separator, Plus(Word)))
  const GAME := Cat(Plus(Word), Star(Cat(Separator, Plus(Word))))

  const PUSH := "push-"
  const GCM := "gcm"
  const APNS := "apns"
  const IOS := "ios"

  predicate StartsAt(text: string, s: string, i: nat) {
    i <= |s| && text <= s[i..]
  }

  /** The platform that a separator at e announces. */
  function PlatformAt(s: string, e: nat): Option<string> {
    if e < |s| && IsSeparator(s[e]) then
      if StartsAt(GCM, s, e + 1) then Some(GCM)
      else if StartsAt(APNS, s, e + 1) then Some(APNS)
      else if StartsAt(IOS, s, e + 1) then Some(IOS)
      else None
    else None
  }

  /** The first of the tried ends after which the rest of the expression matches. */
  function FirstMatch(s: string, ends: seq<nat>): Option<nat> {
    if ends == [] then None
    else if PlatformAt(s, ends[0]).Some? then Some(ends[0])
    else FirstMatch(s, ends[1..])
  }

  datatype ParsedTopic = ParsedTopic(game: string, platform: string)

  /** None is the index panic of the source on a topic that does not match. */
  function Parse(topic: string): Option<ParsedTopic> {
    if !StartsAt(PUSH, topic, 0) then None
    else match FirstMatch(topic, Ends(GAME, topic, |PUSH|))
      case None => None
      case Some(e) =>
        if |PUSH| <= e <= |topic| && PlatformAt(topic, e).Some?
        then Some(ParsedTopic(topic[|PUSH|..e], PlatformAt(topic, e).value))
        else None
  }
  // ---------- The games the expression can capture ----------

  /** Letters, digits, underscores and hyphens, where a hyphen stands between two other characters. */
  predicate IsGame(g: string) {
    && g != [] && IsWord(g[0])
    && forall k {:trigger Inside(g, k)} | 0 <= k < |g| :: Inside(g, k)
  }

  predicate Inside(g: string, k: nat)
    requires k < |g|
  {
    IsWord(g[k]) || (g[k] == '-' && k + 1 < |g| && IsWord(g[k + 1]))
  }

  // ---------- The printers ----------

  const SINGLE := "single"
  const MASSIVE := "massive"
  const FEEDBACKS := "feedbacks"

  predicate IsPlatform(p: string) {
    p == GCM || p == APNS || p == IOS
  }

  predicate IsKind(kind: string) {
    kind == SINGLE || kind == MASSIVE || kind == FEEDBACKS
  }

  function TopicOf(game: string, sep: char, platform: string, kind: string): string {
    PUSH + game + [sep] + platform + "-" + kind
  }

  /** The topics the pushers subscribe to. */
  function MessageTopic(game: string, platform: string, kind: string): string {
    TopicOf(game, '_', platform, kind)
  }

  /** The topic SendFeedback writes to. */
  function FeedbackTopic(game: string, platform: string): string {
    TopicOf(game, '-', platform, FEEDBACKS)
  }
}
