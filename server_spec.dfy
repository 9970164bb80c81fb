/**
 * The server's session/channel registry as a value, and what one dispatch
 * of an inbound line does to it. Sessions live in an arena (`sessions`,
 * indexed by SessionId) because the original shares one session record
 * between the nickname map and the member map of its channel; both maps
 * hold ids into the arena.
 */
module ServerSpec {
  import opened Protocol

  type SessionId = nat

  const MaxNicknameLength: nat := 50
  const MaxChannelNameLength: nat := 200
  /** Longest `/m` payload the server accepts (MAX_MSG_SIZE + 100). */
  const MaxPayloadLength: nat := MaxMsgSize + 100

  /** A connected peer: its nickname, joined channel ("" for none), role flags and its reported address. */
  datatype Session = Session(nickname: string, channel: string, isAdmin: bool, isMuted: bool, address: string)

  datatype Channel = Channel(name: string, admin: string, users: map<string, SessionId>)

  datatype Registry = Registry(
    sessions: seq<Session>,
    clients: map<string, SessionId>,
    channels: map<string, Channel>,
    nicknameCounter: nat)

  /** One line written to one session's connection. */
  datatype Outbound = Outbound(to: SessionId, line: string)

  /**
   * What a dispatch sends: a fixed sequence of lines, or a relay of a chat
   * payload to every member of a channel (the order in which members are
   * visited is the hash map's and is left open).
   */
  datatype Effect = Send(lines: seq<Outbound>) | Relay(channel: string, prefix: string, payload: string)

  datatype Step = Step(reg: Registry, effect: Effect)

  // ---------------------------------------------------------------------
  // Channel names (section 1.3 of RFC 1459): `^[#&][^\x07,\s]+$`, at most
  // 200 characters.
  // ---------------------------------------------------------------------

  predicate IsChannelChar(c: char) {
    c != '\U{7}' && c != ',' && !IsWhitespace(c)
  }

  predicate ValidChannelName(name: string) {
    && 2 <= |name| <= MaxChannelNameLength
    && (name[0] == '#' || name[0] == '&')
    && forall i :: 1 <= i < |name| ==> IsChannelChar(name[i])
  }

  // ---------------------------------------------------------------------
  // Registry invariant
  // ---------------------------------------------------------------------

  /** Every nickname key points at a session carrying that nickname. */
  predicate NamesMatch(r: Registry) {
    forall n :: n in r.clients ==> r.clients[n] < |r.sessions| && r.sessions[r.clients[n]].nickname == n
  }

  /** Channel `c` is filed under its own name, has a valid name, and each member is registered under the key it is filed under here and has `c` as its channel. */
  predicate ChannelOk(r: Registry, c: string)
    requires NamesMatch(r) && c in r.channels
  {
    var ch := r.channels[c];
    && ch.name == c
    && ValidChannelName(c)
    && forall u :: u in ch.users ==>
         u in r.clients && r.clients[u] == ch.users[u] && r.sessions[ch.users[u]].channel == c
  }

  /** The session registered as `n` is a member of its channel, holds no flag outside a channel, and is named as admin by its channel when it is one. */
  predicate SessionOk(r: Registry, n: string)
    requires NamesMatch(r) && n in r.clients
  {
    var s := r.sessions[r.clients[n]];
    && (s.channel == "" ==> !s.isAdmin && !s.isMuted)
    && (s.channel != "" ==> s.channel in r.channels && n in r.channels[s.channel].users)
    && (s.isAdmin ==> s.channel in r.channels && r.channels[s.channel].admin == n)
  }

  predicate Valid(r: Registry) {
    && r.nicknameCounter >= 1
    && NamesMatch(r)
    && (forall c :: c in r.channels ==> ChannelOk(r, c))
    && (forall n :: n in r.clients ==> SessionOk(r, n))
  }

  /** Session `id` is live: it is the one its nickname is registered to. */
  predicate Registered(r: Registry, id: SessionId) {
    id < |r.sessions| && r.sessions[id].nickname in r.clients && r.clients[r.sessions[id].nickname] == id
  }

  const Empty: Registry := Registry([], map[], map[], 1)

  // ---------------------------------------------------------------------
  // Nickname allocation (getNextNickname)
  // ---------------------------------------------------------------------

  /** Registered nicknames of the form Client_<k> with k >= counter. */
  ghost function TakenFrom(clients: map<string, SessionId>, counter: nat): set<string> {
    set n | n in clients.Keys && exists k: nat :: k >= counter && n == ClientName(k)
  }

  lemma TakenFromShrinks(clients: map<string, SessionId>, counter: nat)
    requires ClientName(counter) in clients
    ensures |TakenFrom(clients, counter + 1)| < |TakenFrom(clients, counter)|
  {
    var later, now := TakenFrom(clients, counter + 1), TakenFrom(clients, counter);
    assert ClientName(counter) in now;
    if ClientName(counter) in later {
      var k: nat :| k >= counter + 1 && ClientName(counter) == ClientName(k);
      ClientNameInjective(counter, k);
    }
    var rest := now - {ClientName(counter)};
    assert later <= rest;
    SubsetSize(later, rest);
  }

  lemma {:induction false} SubsetSize<T>(a: set<T>, b: set<T>)
    requires a <= b
    ensures |a| <= |b|
    decreases |a|
  {
    if a != {} {
      var x :| x in a;
      SubsetSize(a - {x}, b - {x});
    }
  }

  /** The first counter value, from `counter` on, whose Client_<k> name is free. */
  function FirstFreeIndex(clients: map<string, SessionId>, counter: nat): (k: nat)
    ensures counter <= k && ClientName(k) !in clients
    ensures forall j :: counter <= j < k ==> ClientName(j) in clients
    decreases |TakenFrom(clients, counter)|
  {
    if ClientName(counter) !in clients then
      counter
    else
      TakenFromShrinks(clients, counter);
      FirstFreeIndex(clients, counter + 1)
  }

  /** Admission of a new connection: a fresh session under a fresh Client_<k> name, outside any channel. */
  function OnAdmit(r: Registry, address: string): (Registry, SessionId)
  {
    var k := FirstFreeIndex(r.clients, r.nicknameCounter);
    var id := |r.sessions|;
    (r.(sessions := r.sessions + [Session(ClientName(k), "", false, false, address)],
        clients := r.clients[ClientName(k) := id],
        nicknameCounter := k + 1),
     id)
  }

  // ---------------------------------------------------------------------
  // Command recognition (the regular expressions of handleMessage)
  // ---------------------------------------------------------------------

  datatype Command =
    | Close                 // empty read: the peer hung up
    | WhoAmI
    | Ping
    | Nickname(arg: string)
    | Join(arg: string)
    | Mute(arg: string)
    | Unmute(arg: string)
    | Whois(arg: string)
    | Kick(arg: string)
    | Say(arg: string)      // `/m <payload>`
    | Ignored               // unknown `/` line or a line not starting with `/`

  /** `regex_match(line, keyword + "(.+)")`: the whole line is the keyword and a non-empty argument without line breaks. */
  function Argument(line: string, keyword: string): Option<string> {
    if |line| > |keyword| && line[..|keyword|] == keyword && NoLineBreak(line[|keyword|..]) then
      Some(line[|keyword|..])
    else
      None
  }

  /** The tests of handleMessage, in their order. */
  function ParseCommand(line: string): Command {
    if line == "" then Close
    else if line[0] != '/' then Ignored
    else if line == "/whoami" then WhoAmI
    else if line == "/ping" then Ping
    else if Argument(line, "/nickname ").Some? then Nickname(Argument(line, "/nickname ").value)
    else if Argument(line, "/join ").Some? then Join(Argument(line, "/join ").value)
    else if Argument(line, "/mute ").Some? then Mute(Argument(line, "/mute ").value)
    else if Argument(line, "/unmute ").Some? then Unmute(Argument(line, "/unmute ").value)
    else if Argument(line, "/whois ").Some? then Whois(Argument(line, "/whois ").value)
    else if Argument(line, "/kick ").Some? then Kick(Argument(line, "/kick ").value)
    else if Argument(line, "/m ").Some? then Say(Argument(line, "/m ").value)
    else Ignored
  }

  // ---------------------------------------------------------------------
  // Handlers
  // ---------------------------------------------------------------------

  function Reply(r: Registry, id: SessionId, text: string): Step {
    Step(r, Send([Outbound(id, text)]))
  }

  function RoleWord(isAdmin: bool): string {
    if isAdmin then "admin" else "user"
  }

  /** Empty read: the session leaves the nickname map and its channel's member map. */
  function OnClose(r: Registry, id: SessionId): Step
    requires Valid(r) && Registered(r, id)
  {
    var s := r.sessions[id];
    assert SessionOk(r, s.nickname);
    var channels :=
      if s.channel != "" then
        var ch := r.channels[s.channel];
        r.channels[s.channel := ch.(users := ch.users - {s.nickname})]
      else
        r.channels;
    Step(r.(clients := r.clients - {s.nickname}, channels := channels), Send([]))
  }

  function OnNickname(r: Registry, id: SessionId, x: string): Step
    requires Valid(r) && Registered(r, id)
  {
    var s := r.sessions[id];
    assert SessionOk(r, s.nickname);
    if x in r.clients then
      Reply(r, id, "Nickname: " + x + " already taken!")
    else if |x| > MaxNicknameLength then
      Reply(r, id, "Nickname too long!")
    else
      var channels :=
        if s.channel != "" then
          var ch := r.channels[s.channel];
          r.channels[s.channel := ch.(users := (ch.users - {s.nickname})[x := id],
                                      admin := if s.isAdmin then x else ch.admin)]
        else
          r.channels;
      Step(r.(sessions := r.sessions[id := s.(nickname := x)],
              clients := (r.clients - {s.nickname})[x := id],
              channels := channels),
           Send([Outbound(id, "/youare " + x)]))
  }

  function OnJoin(r: Registry, id: SessionId, name: string): Step
    requires Valid(r) && Registered(r, id)
  {
    var s := r.sessions[id];
    assert SessionOk(r, s.nickname);
    if !ValidChannelName(name) then
      Reply(r, id, "Invalid channel name according with RFC 1459!")
    else if s.isAdmin then
      Reply(r, id, "You can't leave a channel you administrate!")
    else
      // leave the current channel, dropping the flags scoped to it
      var channels1 :=
        if s.channel != "" then
          var ch := r.channels[s.channel];
          r.channels[s.channel := ch.(users := ch.users - {s.nickname})]
        else
          r.channels;
      var s1 := if s.channel != "" then s.(isMuted := false, isAdmin := false) else s;
      // the first to join an unseen name creates the channel and administrates it
      var created := name !in channels1;
      var channels2 := if created then channels1[name := Channel(name, s.nickname, map[])] else channels1;
      var s2 := if created then s1.(isAdmin := true) else s1;
      var ch := channels2[name];
      var s3 := s2.(channel := name);
      Step(r.(sessions := r.sessions[id := s3],
              channels := channels2[name := ch.(users := ch.users[s.nickname := id])]),
           Send([Outbound(id, "/joined " + name + " " + RoleWord(s3.isAdmin))]))
  }

  /**
   * The checks /mute, /unmute, /whois and /kick share, in their order: not
   * the caller itself, caller administrates a channel, target is a member
   * of it. The result is the refusal to send, if any.
   */
  function ModerationRefusal(r: Registry, id: SessionId, t: string, verb: string): Option<string>
    requires Valid(r) && Registered(r, id)
  {
    var s := r.sessions[id];
    assert SessionOk(r, s.nickname);
    if t == s.nickname then Some("Cannot " + verb + " yourself!")
    else if !s.isAdmin then Some("You must be a channel admin to " + verb + " someone!")
    else if t !in r.channels[s.channel].users then Some(t + " is not in the channel!")
    else None
  }

  /** The member `t` of the caller's channel, once ModerationRefusal has passed. */
  function Target(r: Registry, id: SessionId, t: string): (target: SessionId)
    requires Valid(r) && Registered(r, id)
    requires ModerationRefusal(r, id, t, "mute") == None
    ensures target < |r.sessions|
  {
    var s := r.sessions[id];
    assert SessionOk(r, s.nickname);
    assert ChannelOk(r, s.channel);
    r.channels[s.channel].users[t]
  }

  lemma RefusalIgnoresVerb(r: Registry, id: SessionId, t: string, verb: string)
    requires Valid(r) && Registered(r, id)
    ensures ModerationRefusal(r, id, t, verb).None? <==> ModerationRefusal(r, id, t, "mute").None?
  {
  }

  /** /mute (`mute` true) and /unmute (`mute` false). */
  function OnMute(r: Registry, id: SessionId, t: string, mute: bool): Step
    requires Valid(r) && Registered(r, id)
  {
    var verb := if mute then "mute" else "unmute";
    RefusalIgnoresVerb(r, id, t, verb);
    match ModerationRefusal(r, id, t, verb)
    case Some(refusal) => Reply(r, id, refusal)
    case None =>
      var target := Target(r, id, t);
      if r.sessions[target].isMuted == mute then
        Reply(r, id, t + " is already " + verb + "d!")
      else
        Step(r.(sessions := r.sessions[target := r.sessions[target].(isMuted := mute)]),
             Send([Outbound(target, "/" + verb + "d"), Outbound(id, t + " is now " + verb + "d!")]))
  }

  function OnWhois(r: Registry, id: SessionId, t: string): Step
    requires Valid(r) && Registered(r, id)
  {
    RefusalIgnoresVerb(r, id, t, "whois");
    match ModerationRefusal(r, id, t, "whois")
    case Some(refusal) => Reply(r, id, refusal)
    case None =>
      var target := Target(r, id, t);
      Reply(r, id, t + " is connected from " + r.sessions[target].address + "!")
  }

  function OnKick(r: Registry, id: SessionId, t: string): Step
    requires Valid(r) && Registered(r, id)
  {
    RefusalIgnoresVerb(r, id, t, "kick");
    match ModerationRefusal(r, id, t, "kick")
    case Some(refusal) => Reply(r, id, refusal)
    case None =>
      var s := r.sessions[id];
      var target := Target(r, id, t);
      var ch := r.channels[s.channel];
      Step(r.(channels := r.channels[s.channel := ch.(users := ch.users - {t})],
              sessions := r.sessions[target := r.sessions[target].(channel := "", isAdmin := false, isMuted := false)]),
           Send([Outbound(target, "/kicked"), Outbound(id, t + " is now kicked!")]))
  }

  function OnSay(r: Registry, id: SessionId, p: string): Step
    requires Valid(r) && Registered(r, id)
  {
    var s := r.sessions[id];
    if |p| > MaxPayloadLength then Reply(r, id, "Message is too long!")
    else if s.channel == "" then Reply(r, id, "You must be in a channel to send messages!")
    else if s.isMuted then Reply(r, id, "You can't send messages while muted!")
    else Step(r, Relay(s.channel, "/msg " + s.nickname + " ", p))
  }

  /** The branch of handleMessage that command `cmd` from session `id` takes. */
  function Execute(r: Registry, id: SessionId, cmd: Command): Step
    requires Valid(r) && Registered(r, id)
  {
    match cmd
    case Close => OnClose(r, id)
    case WhoAmI => Reply(r, id, "/youare " + r.sessions[id].nickname)
    case Ping => Reply(r, id, "pong")
    case Nickname(x) => OnNickname(r, id, x)
    case Join(name) => OnJoin(r, id, name)
    case Mute(t) => OnMute(r, id, t, true)
    case Unmute(t) => OnMute(r, id, t, false)
    case Whois(t) => OnWhois(r, id, t)
    case Kick(t) => OnKick(r, id, t)
    case Say(p) => OnSay(r, id, p)
    case Ignored => Step(r, Send([]))
  }

  /** handleMessage: one inbound line from session `id`, recognised, then executed. */
  function Dispatch(r: Registry, id: SessionId, line: string): Step
    requires Valid(r) && Registered(r, id)
  {
    Execute(r, id, ParseCommand(line))
  }

  // ---------------------------------------------------------------------
  // Delivery
  // ---------------------------------------------------------------------

  /** The lines `out` writes to session `id`, in order. */
  function LinesTo(out: seq<Outbound>, id: SessionId): seq<string> {
    if out == [] then []
    else (if out[0].to == id then [out[0].line] else []) + LinesTo(out[1..], id)
  }

  /** `lines` written one after another to session `to`. */
  function Addressed(to: SessionId, lines: seq<string>): (out: seq<Outbound>) {
    seq(|lines|, k requires 0 <= k < |lines| => Outbound(to, lines[k]))
  }

  /**
   * multicastMessage: nothing for an unknown channel; otherwise every member
   * receives exactly the chunked lines of the payload, and nobody else
   * receives anything.
   */
  predicate IsMulticast(r: Registry, channel: string, prefix: string, payload: string, out: seq<Outbound>) {
    if channel !in r.channels then
      out == []
    else
      var users := r.channels[channel].users;
      && (forall n :: n in users ==> LinesTo(out, users[n]) == Lines(prefix, payload))
      && (forall k :: 0 <= k < |out| ==> out[k].to in users.Values)
  }

  /** `out` is a way of carrying out effect `e` against registry `r`. */
  predicate Realizes(r: Registry, e: Effect, out: seq<Outbound>) {
    match e
    case Send(lines) => out == lines
    case Relay(channel, prefix, payload) => IsMulticast(r, channel, prefix, payload, out)
  }
}
