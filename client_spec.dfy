/**
 * What the chat client makes of one line read from the server: the three
 * `regex_search` patterns of its listening loop, modelled as leftmost
 * matches with greedy groups, the exact-comparison control lines, and the
 * mirror of its own session (nickname, channel, role and mute flag) that
 * each line updates.
 */
module ClientSpec {
  import opened Protocol

  // ---------------------------------------------------------------------
  // Searching for `/youare (.+)`, `/joined (.+) (.+)` and `/msg (\S+) (.+)`
  // ---------------------------------------------------------------------

  datatype Pattern = YouArePattern | JoinedPattern | MsgPattern

  function Keyword(p: Pattern): string {
    match p
    case YouArePattern => "/youare "
    case JoinedPattern => "/joined "
    case MsgPattern => "/msg "
  }

  /** The capture groups of a match; `second` is empty for the one-group pattern. */
  datatype Groups = Groups(first: string, second: string)

  /** End of the longest run from `i` that `.` matches. */
  function LineRunEnd(s: string, i: nat): (j: nat)
    requires i <= |s|
    ensures i <= j <= |s| && NoLineBreak(s[i..j])
    ensures j == |s| || IsLineBreak(s[j])
    decreases |s| - i
  {
    if i == |s| || IsLineBreak(s[i]) then i else LineRunEnd(s, i + 1)
  }

  /** End of the longest run from `i` that `\S` matches. */
  function WordEnd(s: string, i: nat): (j: nat)
    requires i <= |s|
    ensures i <= j <= |s| && NoWhitespace(s[i..j])
    ensures j == |s| || IsWhitespace(s[j])
    decreases |s| - i
  {
    if i == |s| || IsWhitespace(s[i]) then i else WordEnd(s, i + 1)
  }

  /** The last space in `s[lo..hi]`, if any. */
  function LastSpace(s: string, lo: nat, hi: nat): (j: Option<nat>)
    requires hi <= |s|
    ensures j.Some? ==> lo <= j.value < hi && s[j.value] == ' ' && forall k :: j.value < k < hi ==> s[k] != ' '
    ensures j.None? ==> forall k :: lo <= k < hi ==> s[k] != ' '
    decreases hi
  {
    if hi <= lo then None
    else if s[hi - 1] == ' ' then Some(hi - 1)
    else LastSpace(s, lo, hi - 1)
  }

  /**
   * The match of `p` starting exactly at `i`, as backtracking would find it:
   * greedy groups, and for `/joined` the last space that still leaves both
   * groups non-empty.
   */
  function MatchAt(p: Pattern, s: string, i: nat): Option<Groups>
    requires i <= |s|
  {
    if !At(s, i, Keyword(p)) then None
    else
      var b := i + |Keyword(p)|;
      match p
      case YouArePattern =>
        var e := LineRunEnd(s, b);
        if e > b then Some(Groups(s[b..e], "")) else None
      case JoinedPattern =>
        var e := LineRunEnd(s, b);
        if e < b + 3 then None
        else
          (match LastSpace(s, b + 1, e - 1)
           case Some(j) => Some(Groups(s[b..j], s[j + 1..e]))
           case None => None)
      case MsgPattern =>
        var w := WordEnd(s, b);
        if w == b || w == |s| || s[w] != ' ' then None
        else
          var e := LineRunEnd(s, w + 1);
          if e > w + 1 then Some(Groups(s[b..w], s[w + 1..e])) else None
  }

  /** `regex_search` from position `i` on: the match at the leftmost position where there is one. */
  function Search(p: Pattern, s: string, i: nat): (g: Option<Groups>)
    requires i <= |s|
    decreases |s| - i
  {
    if i == |s| then None
    else if MatchAt(p, s, i).Some? then MatchAt(p, s, i)
    else Search(p, s, i + 1)
  }

  // ---------------------------------------------------------------------
  // Classifying a line
  // ---------------------------------------------------------------------

  datatype Notification =
    | ServerClosed                 // empty read
    | YouAre(nickname: string)
    | Joined(channel: string, role: string)
    | Kicked
    | Muted
    | Unmuted
    | Chat(from: string, text: string)
    | UnknownCommand               // a `/` line that nothing matched
    | Plain(text: string)          // a line not starting with `/`

  /** The tests of the listening loop, in their order. */
  function Classify(line: string): Notification {
    if line == "" then ServerClosed
    else if line[0] != '/' then Plain(line)
    else if Search(YouArePattern, line, 0).Some? then YouAre(Search(YouArePattern, line, 0).value.first)
    else if Search(JoinedPattern, line, 0).Some? then
      var g := Search(JoinedPattern, line, 0).value;
      Joined(g.first, g.second)
    else if line == "/kicked" then Kicked
    else if line == "/muted" then Muted
    else if line == "/unmuted" then Unmuted
    else if Search(MsgPattern, line, 0).Some? then
      var g := Search(MsgPattern, line, 0).value;
      Chat(g.first, g.second)
    else UnknownCommand
  }

  // ---------------------------------------------------------------------
  // The client's mirror of its own session
  // ---------------------------------------------------------------------

  datatype Mirror = Mirror(nickname: string, channel: string, isAdmin: bool, isMuted: bool)

  /** A freshly initialised session record. */
  const Fresh: Mirror := Mirror("", "", false, false)

  /** What a handled line leads to besides the mirror update. */
  datatype Event = Display(text: string) | Ignore | StopListening

  /** One line handled by the listening loop: the new mirror and the event. */
  function OnLine(m: Mirror, line: string): (Mirror, Event) {
    match Classify(line)
    case ServerClosed => (m, StopListening)
    case YouAre(n) => (m.(nickname := n), Ignore)
    case Joined(c, role) => (m.(isAdmin := role == "admin", channel := c), Ignore)
    case Kicked => (m.(isAdmin := false, channel := ""), Ignore)
    case Muted => (m.(isMuted := true), Ignore)
    case Unmuted => (m.(isMuted := false), Ignore)
    case Chat(from, text) => (m, Display(from + ": " + text))
    case UnknownCommand => (m, Ignore)
    case Plain(text) => (m, Display(text))
  }

  /** What a socket read produced: nothing within the timeout, or a line (possibly empty). */
  datatype ReadResult = NoData | Line(text: string)

  /** The chat-window lines an event adds. */
  function Shown(e: Event): seq<string> {
    if e.Display? then [e.text] else []
  }

  /** What the listening loop has done after a run of reads. */
  datatype Transcript = Transcript(me: Mirror, shown: seq<string>, stopped: bool)

  /** `t`, preceded by the chat-window lines `shown`. */
  function After(shown: seq<string>, t: Transcript): Transcript {
    Transcript(t.me, shown + t.shown, t.stopped)
  }

  /**
   * The listening loop of a connected client fed `feed` in order: reads
   * that time out are skipped, every line is handled by `OnLine`, and the
   * empty read ends the loop, so nothing after it is looked at.
   */
  function Replay(m: Mirror, feed: seq<ReadResult>): Transcript
    decreases |feed|
  {
    if feed == [] then Transcript(m, [], false)
    else if feed[0].NoData? then Replay(m, feed[1..])
    else
      var step := OnLine(m, feed[0].text);
      if step.1 == StopListening then Transcript(step.0, [], true)
      else
        After(Shown(step.1), Replay(step.0, feed[1..]))
  }
}
