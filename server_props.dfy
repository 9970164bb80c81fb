/**
 * What the server promises about its registry: every admission and every
 * dispatched line keeps the registry invariant, and each command has the
 * outcome, refusal order and reply text of handleMessage.
 */
module ServerProps {
  import opened Protocol
  import opened ServerSpec

  // ---------------------------------------------------------------------
  // The invariant is kept
  // ---------------------------------------------------------------------

  /** Two registered names never share a session. */
  lemma NamesInjective(r: Registry, a: string, b: string)
    requires NamesMatch(r) && a in r.clients && b in r.clients
    ensures r.clients[a] == r.clients[b] ==> a == b
  {
  }

  lemma {:induction false} AdmitKeepsValid(r: Registry, address: string)
    requires Valid(r)
    ensures Valid(OnAdmit(r, address).0)
    ensures Registered(OnAdmit(r, address).0, OnAdmit(r, address).1)
  {
    var (r', id) := OnAdmit(r, address);
    var nick := r'.sessions[id].nickname;
    assert nick !in r.clients;
    forall n | n in r'.clients
      ensures r'.clients[n] < |r'.sessions| && r'.sessions[r'.clients[n]].nickname == n
    {
      if n != nick {
        assert r'.clients[n] == r.clients[n] && r'.sessions[r.clients[n]] == r.sessions[r.clients[n]];
      }
    }
    forall c | c in r'.channels
      ensures ChannelOk(r', c)
    {
      assert ChannelOk(r, c);
      forall u | u in r'.channels[c].users
        ensures u in r'.clients && r'.clients[u] == r'.channels[c].users[u] && r'.sessions[r'.channels[c].users[u]].channel == c
      {
        assert u in r.clients && u != nick;
      }
    }
    forall n | n in r'.clients
      ensures SessionOk(r', n)
    {
      if n != nick {
        assert SessionOk(r, n);
      }
    }
  }

  lemma {:induction false} CloseKeepsValid(r: Registry, id: SessionId)
    requires Valid(r) && Registered(r, id)
    ensures Valid(OnClose(r, id).reg)
  {
    var r' := OnClose(r, id).reg;
    var s := r.sessions[id];
    assert SessionOk(r, s.nickname);
    forall c | c in r'.channels
      ensures ChannelOk(r', c)
    {
      assert ChannelOk(r, c);
      forall u | u in r'.channels[c].users
        ensures u in r'.clients && r'.clients[u] == r'.channels[c].users[u] && r'.sessions[r'.channels[c].users[u]].channel == c
      {
        assert u in r.channels[c].users;
      }
    }
    forall n | n in r'.clients
      ensures SessionOk(r', n)
    {
      assert SessionOk(r, n);
    }
  }

  lemma {:induction false} NicknameKeepsValid(r: Registry, id: SessionId, x: string)
    requires Valid(r) && Registered(r, id)
    ensures Valid(OnNickname(r, id, x).reg)
  {
    var s := r.sessions[id];
    assert SessionOk(r, s.nickname);
    if x !in r.clients && |x| <= MaxNicknameLength {
      var r' := OnNickname(r, id, x).reg;
      assert r'.sessions[id].nickname == x && r'.clients[x] == id;
      forall n | n in r'.clients
        ensures r'.clients[n] < |r'.sessions| && r'.sessions[r'.clients[n]].nickname == n
      {
        if n != x {
          assert n in r.clients && n != s.nickname && r'.clients[n] == r.clients[n] != id;
        }
      }
      forall c | c in r'.channels
        ensures ChannelOk(r', c)
      {
        assert ChannelOk(r, c);
        forall u | u in r'.channels[c].users
          ensures u in r'.clients && r'.clients[u] == r'.channels[c].users[u] && r'.sessions[r'.channels[c].users[u]].channel == c
        {
          if u != x {
            assert u in r.channels[c].users && u in r.clients;
            assert u != s.nickname;
            assert r.clients[u] != id;
          }
        }
      }
      forall n | n in r'.clients
        ensures SessionOk(r', n)
      {
        if n != x {
          assert SessionOk(r, n) && n != s.nickname && r.clients[n] != id;
          var o := r.sessions[r.clients[n]];
          if o.isAdmin && s.isAdmin {
            assert o.channel != s.channel;
          }
        }
      }
    }
  }

  /** `r'` is the registry after session `id` (not an admin) successfully joins `name`, spelled out field by field. */
  predicate JoinedAs(r: Registry, r': Registry, id: SessionId, name: string)
    requires id < |r.sessions|
  {
    var s := r.sessions[id];
    && r'.clients == r.clients
    && r'.nicknameCounter == r.nicknameCounter
    && |r'.sessions| == |r.sessions|
    && r'.sessions[id] == s.(channel := name, isMuted := false, isAdmin := name !in r.channels)
    && (forall j :: 0 <= j < |r.sessions| && j != id ==> r'.sessions[j] == r.sessions[j])
    && r'.channels.Keys == r.channels.Keys + {name}
    && (forall c :: c in r.channels && c != name && c != s.channel ==> r'.channels[c] == r.channels[c])
    && (s.channel != "" && s.channel != name && s.channel in r.channels ==>
          r'.channels[s.channel] == r.channels[s.channel].(users := r.channels[s.channel].users - {s.nickname}))
    && r'.channels[name].name == name
    && r'.channels[name].admin == (if name in r.channels then r.channels[name].admin else s.nickname)
    && r'.channels[name].users ==
         (if name !in r.channels then map[]
          else if name == s.channel then r.channels[name].users - {s.nickname}
          else r.channels[name].users)[s.nickname := id]
  }

  lemma JoinFacts(r: Registry, id: SessionId, name: string)
    requires Valid(r) && Registered(r, id)
    requires ValidChannelName(name) && !r.sessions[id].isAdmin
    ensures JoinedAs(r, OnJoin(r, id, name).reg, id, name)
  {
    JoinedSessionFacts(r, id, name);
    JoinedChannelFacts(r, id, name);
  }

  /** The session side of a successful join. */
  lemma JoinedSessionFacts(r: Registry, id: SessionId, name: string)
    requires Valid(r) && Registered(r, id)
    requires ValidChannelName(name) && !r.sessions[id].isAdmin
    ensures var r' := OnJoin(r, id, name).reg; var s := r.sessions[id];
      && r'.clients == r.clients
      && r'.nicknameCounter == r.nicknameCounter
      && r'.sessions == r.sessions[id := s.(channel := name, isMuted := false, isAdmin := name !in r.channels)]
  {
    var s := r.sessions[id];
    assert SessionOk(r, s.nickname);
  }

  /** The channel side of a successful join. */
  lemma JoinedChannelFacts(r: Registry, id: SessionId, name: string)
    requires Valid(r) && Registered(r, id)
    requires ValidChannelName(name) && !r.sessions[id].isAdmin
    ensures var r' := OnJoin(r, id, name).reg; var s := r.sessions[id];
      var channels1 :=
        if s.channel != "" then
          r.channels[s.channel := r.channels[s.channel].(users := r.channels[s.channel].users - {s.nickname})]
        else r.channels;
      var channels2 := if name !in channels1 then channels1[name := Channel(name, s.nickname, map[])] else channels1;
      r'.channels == channels2[name := channels2[name].(users := channels2[name].users[s.nickname := id])]
  {
    var s := r.sessions[id];
    assert SessionOk(r, s.nickname);
  }

  lemma JoinedChannelsOk(r: Registry, r': Registry, id: SessionId, name: string)
    requires Valid(r) && Registered(r, id) && ValidChannelName(name)
    requires JoinedAs(r, r', id, name)
    ensures NamesMatch(r')
    ensures forall c :: c in r'.channels ==> ChannelOk(r', c)
  {
    JoinedNamesMatch(r, r', id, name);
    forall c | c in r'.channels
      ensures ChannelOk(r', c)
    {
      JoinedChannelOk(r, r', id, name, c);
    }
  }

  lemma JoinedNamesMatch(r: Registry, r': Registry, id: SessionId, name: string)
    requires Valid(r) && Registered(r, id)
    requires JoinedAs(r, r', id, name)
    ensures NamesMatch(r')
  {
    forall n | n in r'.clients
      ensures r'.clients[n] < |r'.sessions| && r'.sessions[r'.clients[n]].nickname == n
    {
      assert n in r.clients;
    }
  }

  /** After the join, channel `c` still satisfies ChannelOk. */
  lemma JoinedChannelOk(r: Registry, r': Registry, id: SessionId, name: string, c: string)
    requires Valid(r) && Registered(r, id) && ValidChannelName(name)
    requires JoinedAs(r, r', id, name) && NamesMatch(r') && c in r'.channels
    ensures ChannelOk(r', c)
  {
    if c != name {
      UntouchedChannelOk(r, r', id, name, c);
    } else if name in r.channels {
      JoinedTargetOk(r, r', id, name);
    }
  }

  /** A channel other than the one joined keeps its members, less the joiner. */
  lemma UntouchedChannelOk(r: Registry, r': Registry, id: SessionId, name: string, c: string)
    requires Valid(r) && Registered(r, id)
    requires JoinedAs(r, r', id, name) && NamesMatch(r') && c in r'.channels && c != name
    ensures ChannelOk(r', c)
  {
    var me := r.sessions[id].nickname;
    assert c in r.channels;
    assert ChannelOk(r, c);
    forall u | u in r'.channels[c].users
      ensures u in r'.clients && r'.clients[u] == r'.channels[c].users[u] && r'.sessions[r'.channels[c].users[u]].channel == c
    {
      assert u in r.channels[c].users && u != me;
    }
  }

  /** The joined channel, if it existed, keeps its members and gains the joiner. */
  lemma JoinedTargetOk(r: Registry, r': Registry, id: SessionId, name: string)
    requires Valid(r) && Registered(r, id)
    requires JoinedAs(r, r', id, name) && NamesMatch(r') && name in r.channels
    ensures ChannelOk(r', name)
  {
    var me := r.sessions[id].nickname;
    assert ChannelOk(r, name);
    forall u | u in r'.channels[name].users
      ensures u in r'.clients && r'.clients[u] == r'.channels[name].users[u] && r'.sessions[r'.channels[name].users[u]].channel == name
    {
      if u != me {
        assert u in r.channels[name].users;
      }
    }
  }

  lemma JoinedSessionsOk(r: Registry, r': Registry, id: SessionId, name: string)
    requires Valid(r) && Registered(r, id) && ValidChannelName(name)
    requires JoinedAs(r, r', id, name)
    requires NamesMatch(r')
    ensures forall n :: n in r'.clients ==> SessionOk(r', n)
  {
    var me := r.sessions[id].nickname;
    forall n | n in r'.clients
      ensures SessionOk(r', n)
    {
      if n != me {
        assert SessionOk(r, n) && r.clients[n] != id;
      }
    }
  }

  lemma JoinKeepsValid(r: Registry, id: SessionId, name: string)
    requires Valid(r) && Registered(r, id)
    ensures Valid(OnJoin(r, id, name).reg)
  {
    if ValidChannelName(name) && !r.sessions[id].isAdmin {
      JoinFacts(r, id, name);
      JoinedChannelsOk(r, OnJoin(r, id, name).reg, id, name);
      JoinedSessionsOk(r, OnJoin(r, id, name).reg, id, name);
    }
  }

  lemma {:induction false} MuteKeepsValid(r: Registry, id: SessionId, t: string, mute: bool)
    requires Valid(r) && Registered(r, id)
    ensures Valid(OnMute(r, id, t, mute).reg)
  {
    var verb := if mute then "mute" else "unmute";
    RefusalIgnoresVerb(r, id, t, verb);
    if ModerationRefusal(r, id, t, verb).None? {
      var s := r.sessions[id];
      assert SessionOk(r, s.nickname) && ChannelOk(r, s.channel);
      var target := Target(r, id, t);
      assert r.sessions[target].channel == s.channel != "";
      MuteFlagKeepsValid(r, target, mute);
    }
  }

  /** Setting the mute flag of a session that is in a channel keeps the registry valid. */
  lemma MuteFlagKeepsValid(r: Registry, target: SessionId, mute: bool)
    requires Valid(r) && target < |r.sessions| && r.sessions[target].channel != ""
    ensures Valid(r.(sessions := r.sessions[target := r.sessions[target].(isMuted := mute)]))
  {
    var r' := r.(sessions := r.sessions[target := r.sessions[target].(isMuted := mute)]);
    forall c | c in r'.channels
      ensures ChannelOk(r', c)
    {
      assert ChannelOk(r, c);
    }
    forall n | n in r'.clients
      ensures SessionOk(r', n)
    {
      assert SessionOk(r, n);
    }
  }

  lemma {:induction false} KickKeepsValid(r: Registry, id: SessionId, t: string)
    requires Valid(r) && Registered(r, id)
    ensures Valid(OnKick(r, id, t).reg)
  {
    RefusalIgnoresVerb(r, id, t, "kick");
    if ModerationRefusal(r, id, t, "kick").None? {
      var s := r.sessions[id];
      assert SessionOk(r, s.nickname) && ChannelOk(r, s.channel);
      var target := Target(r, id, t);
      var r' := OnKick(r, id, t).reg;
      assert r.clients[t] == target && r.sessions[target].channel == s.channel;
      forall c | c in r'.channels
        ensures ChannelOk(r', c)
      {
        assert ChannelOk(r, c);
        forall u | u in r'.channels[c].users
          ensures u in r'.clients && r'.clients[u] == r'.channels[c].users[u] && r'.sessions[r'.channels[c].users[u]].channel == c
        {
          assert u in r.channels[c].users && u != t;
        }
      }
      forall n | n in r'.clients
        ensures SessionOk(r', n)
      {
        assert SessionOk(r, n);
      }
    }
  }

  /** Every line a live session sends leaves the registry valid. */
  lemma DispatchKeepsValid(r: Registry, id: SessionId, line: string)
    requires Valid(r) && Registered(r, id)
    ensures Valid(Dispatch(r, id, line).reg)
  {
    ExecuteKeepsValid(r, id, ParseCommand(line));
  }

  lemma ExecuteKeepsValid(r: Registry, id: SessionId, cmd: Command)
    requires Valid(r) && Registered(r, id)
    ensures Valid(Execute(r, id, cmd).reg)
  {
    match cmd
    case Close => CloseKeepsValid(r, id);
    case Nickname(x) => NicknameKeepsValid(r, id, x);
    case Join(name) => JoinKeepsValid(r, id, name);
    case Mute(t) => MuteKeepsValid(r, id, t, true);
    case Unmute(t) => MuteKeepsValid(r, id, t, false);
    case Kick(t) => KickKeepsValid(r, id, t);
    case _ =>
  }
}

module ServerCommands {
  import opened Protocol
  import opened ServerSpec
  import opened ServerProps

  // ---------------------------------------------------------------------
  // Recognising command lines
  // ---------------------------------------------------------------------

  lemma ArgumentOf(keyword: string, x: string)
    requires x != "" && NoLineBreak(x)
    ensures Argument(keyword + x, keyword) == Some(x)
  {
    assert (keyword + x)[..|keyword|] == keyword;
    assert (keyword + x)[|keyword|..] == x;
  }

  /** A line that differs from a keyword at some position inside both is not that command. */
  lemma Mismatch(line: string, keyword: string, j: nat)
    requires j < |keyword| && j < |line| && line[j] != keyword[j]
    ensures Argument(line, keyword) == None
  {
    if |line| > |keyword| {
      assert line[..|keyword|][j] == line[j];
    }
  }

  /** A keyword followed by a non-empty argument without line breaks is recognised as that command, whatever the argument says. */
  lemma ParseArgumentLines(x: string)
    requires x != "" && NoLineBreak(x)
    ensures ParseCommand("/nickname " + x) == Nickname(x)
    ensures ParseCommand("/join " + x) == Join(x)
    ensures ParseCommand("/mute " + x) == Mute(x)
    ensures ParseCommand("/unmute " + x) == Unmute(x)
    ensures ParseCommand("/whois " + x) == Whois(x)
    ensures ParseCommand("/kick " + x) == Kick(x)
    ensures ParseCommand("/m " + x) == Say(x)
  {
    ParseNicknameLine(x);
    ParseJoinLine(x);
    ParseMuteLine(x);
    ParseUnmuteLine(x);
    ParseWhoisLine(x);
    ParseKickLine(x);
    ParseSayLine(x);
  }

  lemma ParseNicknameLine(x: string)
    requires x != "" && NoLineBreak(x)
    ensures ParseCommand("/nickname " + x) == Nickname(x)
  {
    ArgumentOf("/nickname ", x);
  }

  lemma ParseJoinLine(x: string)
    requires x != "" && NoLineBreak(x)
    ensures ParseCommand("/join " + x) == Join(x)
  {
    Mismatch("/join " + x, "/nickname ", 1);
    ArgumentOf("/join ", x);
  }

  lemma ParseMuteLine(x: string)
    requires x != "" && NoLineBreak(x)
    ensures ParseCommand("/mute " + x) == Mute(x)
  {
    Mismatch("/mute " + x, "/nickname ", 1);
    Mismatch("/mute " + x, "/join ", 1);
    ArgumentOf("/mute ", x);
  }

  lemma ParseUnmuteLine(x: string)
    requires x != "" && NoLineBreak(x)
    ensures ParseCommand("/unmute " + x) == Unmute(x)
  {
    Mismatch("/unmute " + x, "/nickname ", 1);
    Mismatch("/unmute " + x, "/join ", 1);
    Mismatch("/unmute " + x, "/mute ", 1);
    ArgumentOf("/unmute ", x);
  }

  lemma ParseWhoisLine(x: string)
    requires x != "" && NoLineBreak(x)
    ensures ParseCommand("/whois " + x) == Whois(x)
  {
    Mismatch("/whois " + x, "/nickname ", 1);
    Mismatch("/whois " + x, "/join ", 1);
    Mismatch("/whois " + x, "/mute ", 1);
    Mismatch("/whois " + x, "/unmute ", 1);
    ArgumentOf("/whois ", x);
  }

  lemma ParseKickLine(x: string)
    requires x != "" && NoLineBreak(x)
    ensures ParseCommand("/kick " + x) == Kick(x)
  {
    Mismatch("/kick " + x, "/nickname ", 1);
    Mismatch("/kick " + x, "/join ", 1);
    Mismatch("/kick " + x, "/mute ", 1);
    Mismatch("/kick " + x, "/unmute ", 1);
    Mismatch("/kick " + x, "/whois ", 1);
    ArgumentOf("/kick ", x);
  }

  lemma ParseSayLine(x: string)
    requires x != "" && NoLineBreak(x)
    ensures ParseCommand("/m " + x) == Say(x)
  {
    Mismatch("/m " + x, "/nickname ", 1);
    Mismatch("/m " + x, "/join ", 1);
    Mismatch("/m " + x, "/mute ", 2);
    Mismatch("/m " + x, "/unmute ", 1);
    Mismatch("/m " + x, "/whois ", 1);
    Mismatch("/m " + x, "/kick ", 1);
    ArgumentOf("/m ", x);
  }

  /** Conversely, each recognised command came from exactly that line shape. */
  lemma ParsedLineShape(line: string)
    ensures match ParseCommand(line)
      case Close => line == ""
      case WhoAmI => line == "/whoami"
      case Ping => line == "/ping"
      case Nickname(x) => line == "/nickname " + x && x != "" && NoLineBreak(x)
      case Join(x) => line == "/join " + x && x != "" && NoLineBreak(x)
      case Mute(x) => line == "/mute " + x && x != "" && NoLineBreak(x)
      case Unmute(x) => line == "/unmute " + x && x != "" && NoLineBreak(x)
      case Whois(x) => line == "/whois " + x && x != "" && NoLineBreak(x)
      case Kick(x) => line == "/kick " + x && x != "" && NoLineBreak(x)
      case Say(x) => line == "/m " + x && x != "" && NoLineBreak(x)
      case Ignored => line != "" && line != "/whoami" && line != "/ping"
  {
    match ParseCommand(line)
    case Nickname(x) => ArgumentShape(line, "/nickname ");
    case Join(x) => ArgumentShape(line, "/join ");
    case Mute(x) => ArgumentShape(line, "/mute ");
    case Unmute(x) => ArgumentShape(line, "/unmute ");
    case Whois(x) => ArgumentShape(line, "/whois ");
    case Kick(x) => ArgumentShape(line, "/kick ");
    case Say(x) => ArgumentShape(line, "/m ");
    case _ =>
  }

  /** A recognised argument is what follows the keyword: a non-empty text without line breaks. */
  lemma ArgumentShape(line: string, keyword: string)
    requires Argument(line, keyword).Some?
    ensures var x := Argument(line, keyword).value;
      line == keyword + x && x != "" && NoLineBreak(x)
  {
    assert line == line[..|keyword|] + line[|keyword|..];
  }

  /** Lines that do not start with `/` are dropped without reply or change. */
  lemma GarbageDropped(r: Registry, id: SessionId, line: string)
    requires Valid(r) && Registered(r, id)
    requires line != "" && line[0] != '/'
    ensures Dispatch(r, id, line) == Step(r, Send([]))
  {
  }

  /** Any `/` line that is none of the commands is dropped without reply or change. */
  lemma UnknownCommandDropped(r: Registry, id: SessionId, line: string)
    requires Valid(r) && Registered(r, id)
    requires ParseCommand(line) == Ignored
    ensures Dispatch(r, id, line) == Step(r, Send([]))
  {
  }

  /** No dispatch touches the nickname counter: only admissions advance it. */
  lemma DispatchKeepsCounter(r: Registry, id: SessionId, line: string)
    requires Valid(r) && Registered(r, id)
    ensures Dispatch(r, id, line).reg.nicknameCounter == r.nicknameCounter
  {
    ExecuteKeepsCounter(r, id, ParseCommand(line));
  }

  lemma ExecuteKeepsCounter(r: Registry, id: SessionId, cmd: Command)
    requires Valid(r) && Registered(r, id)
    ensures Execute(r, id, cmd).reg.nicknameCounter == r.nicknameCounter
  {
    match cmd
    case Nickname(x) =>
      assert OnNickname(r, id, x).reg.nicknameCounter == r.nicknameCounter;
    case Join(name) =>
      assert OnJoin(r, id, name).reg.nicknameCounter == r.nicknameCounter;
    case Kick(t) =>
      assert OnKick(r, id, t).reg.nicknameCounter == r.nicknameCounter;
    case _ =>
  }

  // ---------------------------------------------------------------------
  // Admission
  // ---------------------------------------------------------------------

  /**
   * An admitted connection is registered as Client_<k> for a k at or past
   * the counter whose name nobody held, outside any channel and without
   * flags; the counter moves past k.
   */
  lemma AdmitOutcome(r: Registry, address: string)
    requires Valid(r)
    ensures var (r', id) := OnAdmit(r, address);
      var nick := r'.sessions[id].nickname;
      && id == |r.sessions| && |r'.sessions| == |r.sessions| + 1
      && r'.sessions[..|r.sessions|] == r.sessions
      && (exists k: nat :: r.nicknameCounter <= k && nick == ClientName(k) && r'.nicknameCounter == k + 1)
      && nick !in r.clients
      && r'.clients == r.clients[nick := id]
      && r'.sessions[id] == Session(nick, "", false, false, address)
      && r'.channels == r.channels
  {
    var k := FirstFreeIndex(r.clients, r.nicknameCounter);
    assert OnAdmit(r, address).0.sessions[|r.sessions|].nickname == ClientName(k);
  }

  /**
   * Once a name has been handed out, every later admission (from any
   * registry whose counter has reached the one left behind) hands out a
   * different name, even if the first holder renamed or left.
   */
  lemma LaterAdmissionGetsOtherName(r1: Registry, a1: string, r2: Registry, a2: string)
    requires OnAdmit(r1, a1).0.nicknameCounter <= r2.nicknameCounter
    ensures var (s1, id1) := OnAdmit(r1, a1);
      var (s2, id2) := OnAdmit(r2, a2);
      s1.sessions[id1].nickname != s2.sessions[id2].nickname
  {
    var k1 := FirstFreeIndex(r1.clients, r1.nicknameCounter);
    var k2 := FirstFreeIndex(r2.clients, r2.nicknameCounter);
    ClientNameInjective(k1, k2);
  }

  // ---------------------------------------------------------------------
  // Commands
  // ---------------------------------------------------------------------

  lemma WhoAmIAndPing(r: Registry, id: SessionId)
    requires Valid(r) && Registered(r, id)
    ensures Dispatch(r, id, "/whoami") == Step(r, Send([Outbound(id, "/youare " + r.sessions[id].nickname)]))
    ensures Dispatch(r, id, "/ping") == Step(r, Send([Outbound(id, "pong")]))
  {
  }

  /**
   * An empty read unregisters the session and takes its nickname out of
   * every channel's member map; nothing is sent. Channel names and admins
   * stay as they were (an admin who leaves stays named as admin), and the
   * session records are untouched.
   */
  lemma CloseOutcome(r: Registry, id: SessionId)
    requires Valid(r) && Registered(r, id)
    ensures var st := Dispatch(r, id, ""); var s := r.sessions[id];
      && st.effect == Send([])
      && st.reg.clients == r.clients - {s.nickname}
      && st.reg.sessions == r.sessions
      && st.reg.nicknameCounter == r.nicknameCounter
      && !Registered(st.reg, id)
      && st.reg.channels.Keys == r.channels.Keys
      && (forall c :: c in r.channels ==> st.reg.channels[c] == r.channels[c].(users := r.channels[c].users - {s.nickname}))
      && (forall c :: c in r.channels ==> s.nickname !in st.reg.channels[c].users)
  {
    var s := r.sessions[id];
    assert SessionOk(r, s.nickname);
    var r' := Dispatch(r, id, "").reg;
    assert r' == OnClose(r, id).reg;
    forall c | c in r.channels
      ensures r'.channels[c] == r.channels[c].(users := r.channels[c].users - {s.nickname})
    {
      if c != s.channel {
        assert ChannelOk(r, c);
        assert s.nickname !in r.channels[c].users;
        assert r.channels[c].users - {s.nickname} == r.channels[c].users;
      }
    }
  }

  /**
   * /nickname X: a name already registered (the caller's own included) is
   * refused, then a name over 50 characters; otherwise the session is
   * re-keyed under X in the nickname map and in its channel, and the
   * channel's admin is renamed exactly when the caller administrates it.
   */
  lemma NicknameOutcome(r: Registry, id: SessionId, x: string)
    requires Valid(r) && Registered(r, id)
    requires x != "" && NoLineBreak(x)
    ensures var st := Dispatch(r, id, "/nickname " + x); var s := r.sessions[id];
      && (x in r.clients ==> st == Step(r, Send([Outbound(id, "Nickname: " + x + " already taken!")])))
      && (x !in r.clients && |x| > MaxNicknameLength ==> st == Step(r, Send([Outbound(id, "Nickname too long!")])))
      && (x !in r.clients && |x| <= MaxNicknameLength ==>
            && st.effect == Send([Outbound(id, "/youare " + x)])
            && st.reg.clients == (r.clients - {s.nickname})[x := id]
            && st.reg.sessions == r.sessions[id := s.(nickname := x)]
            && Registered(st.reg, id)
            && st.reg.nicknameCounter == r.nicknameCounter
            && st.reg.channels.Keys == r.channels.Keys
            && (forall c :: c in r.channels && c != s.channel ==> st.reg.channels[c] == r.channels[c])
            && (s.channel != "" ==>
                  && s.channel in r.channels
                  && var ch, ch' := r.channels[s.channel], st.reg.channels[s.channel];
                  && ch'.name == ch.name
                  && ch'.users == (ch.users - {s.nickname})[x := id]
                  && ch'.admin == (if s.isAdmin then x else ch.admin)))
  {
    ParseNicknameLine(x);
    assert SessionOk(r, r.sessions[id].nickname);
  }

  /** A name without a sigil and a name with a comma are refused; `#general` is accepted. */
  lemma ChannelNameExamples()
    ensures !ValidChannelName("general")
    ensures !ValidChannelName("#this,that")
    ensures ValidChannelName("#general")
  {
    assert "#this,that"[5] == ',';
  }

  /**
   * /join N: an invalid name is refused first, then an admin trying to
   * leave; otherwise the caller leaves its channel (losing its flags),
   * becomes admin exactly when N did not exist, is filed under N, and is
   * told its role.
   */
  lemma JoinOutcome(r: Registry, id: SessionId, name: string)
    requires Valid(r) && Registered(r, id)
    requires name != "" && NoLineBreak(name)
    ensures var st := Dispatch(r, id, "/join " + name); var s := r.sessions[id];
      && (!ValidChannelName(name) ==>
            st == Step(r, Send([Outbound(id, "Invalid channel name according with RFC 1459!")])))
      && (ValidChannelName(name) && s.isAdmin ==>
            st == Step(r, Send([Outbound(id, "You can't leave a channel you administrate!")])))
      && (ValidChannelName(name) && !s.isAdmin ==>
            var s' := st.reg.sessions[id];
            && st.effect == Send([Outbound(id, "/joined " + name + " " + RoleWord(name !in r.channels))])
            && s' == s.(channel := name, isMuted := false, isAdmin := name !in r.channels)
            && st.reg.clients == r.clients
            && st.reg.channels[name].users[s.nickname] == id
            && (name !in r.channels ==> st.reg.channels[name].admin == s.nickname && st.reg.channels[name].users == map[s.nickname := id])
            && (name in r.channels ==> st.reg.channels[name].admin == r.channels[name].admin)
            && (s.channel != "" && s.channel != name ==> s.nickname !in st.reg.channels[s.channel].users))
  {
    ParseJoinLine(name);
    var s := r.sessions[id];
    if ValidChannelName(name) && !s.isAdmin {
      JoinFacts(r, id, name);
    }
  }

  /** The first to join an unseen valid name administrates it; the next joiner does not. */
  lemma FirstJoinerAdministrates(r: Registry, a: SessionId, b: SessionId, name: string)
    requires Valid(r) && Registered(r, a) && Registered(r, b) && a != b
    requires ValidChannelName(name) && name !in r.channels
    requires !r.sessions[a].isAdmin && !r.sessions[b].isAdmin
    ensures var r1 := Dispatch(r, a, "/join " + name).reg;
      && Valid(r1) && Registered(r1, a) && Registered(r1, b)
      && r1.sessions[a].isAdmin
      && var r2 := Dispatch(r1, b, "/join " + name).reg;
      b < |r2.sessions| && !r2.sessions[b].isAdmin
  {
    ParseJoinLine(name);
    JoinFacts(r, a, name);
    JoinKeepsValid(r, a, name);
    var r1 := Dispatch(r, a, "/join " + name).reg;
    assert r1.sessions[b] == r.sessions[b];
    JoinFacts(r1, b, name);
  }

  /** The shared moderation checks, case by case; once they pass, the target is the session registered as T. */
  lemma RefusalCases(r: Registry, id: SessionId, t: string, verb: string)
    requires Valid(r) && Registered(r, id)
    ensures var s := r.sessions[id];
      && (t == s.nickname ==> ModerationRefusal(r, id, t, verb) == Some("Cannot " + verb + " yourself!"))
      && (t != s.nickname && !s.isAdmin ==>
            ModerationRefusal(r, id, t, verb) == Some("You must be a channel admin to " + verb + " someone!"))
      && (t != s.nickname && s.isAdmin ==> s.channel in r.channels)
      && (t != s.nickname && s.isAdmin && t !in r.channels[s.channel].users ==>
            ModerationRefusal(r, id, t, verb) == Some(t + " is not in the channel!"))
      && (t != s.nickname && s.isAdmin && t in r.channels[s.channel].users ==>
            && ModerationRefusal(r, id, t, verb) == None
            && ModerationRefusal(r, id, t, "mute") == None
            && t in r.clients && Target(r, id, t) == r.clients[t] != id
            && r.sessions[r.clients[t]].channel == s.channel)
  {
    var s := r.sessions[id];
    assert SessionOk(r, s.nickname);
    if s.isAdmin {
      assert ChannelOk(r, s.channel);
    }
  }

  /** The outcome of /mute and /unmute at the handler level, refusal by refusal. */
  lemma MuteCases(r: Registry, id: SessionId, t: string, mute: bool)
    requires Valid(r) && Registered(r, id)
    ensures var verb := if mute then "mute" else "unmute";
      var st := OnMute(r, id, t, mute); var s := r.sessions[id];
      && (t == s.nickname ==> st == Step(r, Send([Outbound(id, "Cannot " + verb + " yourself!")])))
      && (t != s.nickname && !s.isAdmin ==>
            st == Step(r, Send([Outbound(id, "You must be a channel admin to " + verb + " someone!")])))
      && (t != s.nickname && s.isAdmin ==> s.channel in r.channels)
      && (t != s.nickname && s.isAdmin && t !in r.channels[s.channel].users ==>
            st == Step(r, Send([Outbound(id, t + " is not in the channel!")])))
      && (t != s.nickname && s.isAdmin && t in r.channels[s.channel].users ==>
            && t in r.clients && r.clients[t] < |r.sessions|
            && var target := r.clients[t];
            && (r.sessions[target].isMuted == mute ==>
                  st == Step(r, Send([Outbound(id, t + " is already " + verb + "d!")])))
            && (r.sessions[target].isMuted != mute ==>
                  && st.reg == r.(sessions := r.sessions[target := r.sessions[target].(isMuted := mute)])
                  && st.effect == Send([Outbound(target, "/" + verb + "d"), Outbound(id, t + " is now " + verb + "d!")])))
  {
    var verb := if mute then "mute" else "unmute";
    RefusalCases(r, id, t, verb);
  }

  /** /mute T and /unmute T reach the mute handler. */
  lemma MuteRoutes(r: Registry, id: SessionId, t: string)
    requires Valid(r) && Registered(r, id)
    requires t != "" && NoLineBreak(t)
    ensures Dispatch(r, id, "/mute " + t) == OnMute(r, id, t, true)
    ensures Dispatch(r, id, "/unmute " + t) == OnMute(r, id, t, false)
  {
    assert ParseCommand("/mute " + t) == Mute(t) && ParseCommand("/unmute " + t) == Unmute(t) by {
      ParseMuteLine(t);
      ParseUnmuteLine(t);
    }
  }

  /**
   * /mute T and /unmute T: refused in order for the caller itself, a
   * caller who is not an admin, a T outside the caller's channel, and a T
   * already in the requested state; otherwise only T's mute flag flips, T
   * is notified and the caller is told.
   */
  lemma MuteOutcome(r: Registry, id: SessionId, t: string)
    requires Valid(r) && Registered(r, id)
    requires t != "" && NoLineBreak(t)
    ensures var st := Dispatch(r, id, "/mute " + t); var s := r.sessions[id];
      && (t == s.nickname ==> st == Step(r, Send([Outbound(id, "Cannot mute yourself!")])))
      && (t != s.nickname && !s.isAdmin ==>
            st == Step(r, Send([Outbound(id, "You must be a channel admin to mute someone!")])))
      && (t != s.nickname && s.isAdmin ==> s.channel in r.channels)
      && (t != s.nickname && s.isAdmin && t !in r.channels[s.channel].users ==>
            st == Step(r, Send([Outbound(id, t + " is not in the channel!")])))
      && (t != s.nickname && s.isAdmin && t in r.channels[s.channel].users ==>
            && t in r.clients && r.clients[t] < |r.sessions|
            && var target := r.clients[t];
            && (r.sessions[target].isMuted ==>
                  st == Step(r, Send([Outbound(id, t + " is already muted!")])))
            && (!r.sessions[target].isMuted ==>
                  && st.reg == r.(sessions := r.sessions[target := r.sessions[target].(isMuted := true)])
                  && st.effect == Send([Outbound(target, "/muted"), Outbound(id, t + " is now muted!")])))
  {
    assert "Cannot " + "mute" + " yourself!" == "Cannot mute yourself!";
    assert "You must be a channel admin to " + "mute" + " someone!" == "You must be a channel admin to mute someone!";
    assert t + " is already " + "mute" + "d!" == t + " is already muted!";
    assert t + " is now " + "mute" + "d!" == t + " is now muted!";
    assert "/" + "mute" + "d" == "/muted";
    MuteCases(r, id, t, true);
    MuteRoutes(r, id, t);
  }

  /** /unmute T: the mirror image of /mute T. */
  lemma UnmuteOutcome(r: Registry, id: SessionId, t: string)
    requires Valid(r) && Registered(r, id)
    requires t != "" && NoLineBreak(t)
    ensures var st := Dispatch(r, id, "/unmute " + t); var s := r.sessions[id];
      && (t == s.nickname ==> st == Step(r, Send([Outbound(id, "Cannot unmute yourself!")])))
      && (t != s.nickname && !s.isAdmin ==>
            st == Step(r, Send([Outbound(id, "You must be a channel admin to unmute someone!")])))
      && (t != s.nickname && s.isAdmin ==> s.channel in r.channels)
      && (t != s.nickname && s.isAdmin && t !in r.channels[s.channel].users ==>
            st == Step(r, Send([Outbound(id, t + " is not in the channel!")])))
      && (t != s.nickname && s.isAdmin && t in r.channels[s.channel].users ==>
            && t in r.clients && r.clients[t] < |r.sessions|
            && var target := r.clients[t];
            && (!r.sessions[target].isMuted ==>
                  st == Step(r, Send([Outbound(id, t + " is already unmuted!")])))
            && (r.sessions[target].isMuted ==>
                  && st.reg == r.(sessions := r.sessions[target := r.sessions[target].(isMuted := false)])
                  && st.effect == Send([Outbound(target, "/unmuted"), Outbound(id, t + " is now unmuted!")])))
  {
    assert "Cannot " + "unmute" + " yourself!" == "Cannot unmute yourself!";
    assert "You must be a channel admin to " + "unmute" + " someone!" == "You must be a channel admin to unmute someone!";
    assert t + " is already " + "unmute" + "d!" == t + " is already unmuted!";
    assert t + " is now " + "unmute" + "d!" == t + " is now unmuted!";
    assert "/" + "unmute" + "d" == "/unmuted";
    MuteCases(r, id, t, false);
    MuteRoutes(r, id, t);
  }

  /** Muting the same member twice in a row: the second attempt is refused as already muted. */
  lemma MuteTwiceRefused(r: Registry, id: SessionId, t: string)
    requires Valid(r) && Registered(r, id)
    requires t != "" && NoLineBreak(t)
    requires Dispatch(r, id, "/mute " + t).reg != r
    ensures var r1 := Dispatch(r, id, "/mute " + t).reg;
      && Valid(r1) && Registered(r1, id)
      && Dispatch(r1, id, "/mute " + t) == Step(r1, Send([Outbound(id, t + " is already muted!")]))
  {
    MuteOutcome(r, id, t);
    RefusalCases(r, id, t, "mute");
    DispatchKeepsValid(r, id, "/mute " + t);
    var s := r.sessions[id];
    var r1 := Dispatch(r, id, "/mute " + t).reg;
    var target := r.clients[t];
    assert r1.sessions[id] == s && r1.channels == r.channels && r1.clients == r.clients;
    assert r1.sessions[target].isMuted;
    MuteOutcome(r1, id, t);
  }

  /** Unmuting the same member twice in a row: the second attempt is refused as already unmuted. */
  lemma UnmuteTwiceRefused(r: Registry, id: SessionId, t: string)
    requires Valid(r) && Registered(r, id)
    requires t != "" && NoLineBreak(t)
    requires Dispatch(r, id, "/unmute " + t).reg != r
    ensures var r1 := Dispatch(r, id, "/unmute " + t).reg;
      && Valid(r1) && Registered(r1, id)
      && Dispatch(r1, id, "/unmute " + t) == Step(r1, Send([Outbound(id, t + " is already unmuted!")]))
  {
    UnmuteOutcome(r, id, t);
    RefusalCases(r, id, t, "unmute");
    DispatchKeepsValid(r, id, "/unmute " + t);
    var s := r.sessions[id];
    var r1 := Dispatch(r, id, "/unmute " + t).reg;
    var target := r.clients[t];
    assert r1.sessions[id] == s && r1.channels == r.channels && r1.clients == r.clients;
    assert !r1.sessions[target].isMuted;
    UnmuteOutcome(r1, id, t);
  }

  /** /whois T: the same three refusals as /mute; otherwise T's address is reported. Nothing changes either way. */
  lemma WhoisOutcome(r: Registry, id: SessionId, t: string)
    requires Valid(r) && Registered(r, id)
    requires t != "" && NoLineBreak(t)
    ensures var st := Dispatch(r, id, "/whois " + t); var s := r.sessions[id];
      && st.reg == r
      && (t == s.nickname ==> st.effect == Send([Outbound(id, "Cannot whois yourself!")]))
      && (t != s.nickname && !s.isAdmin ==> st.effect == Send([Outbound(id, "You must be a channel admin to whois someone!")]))
      && (t != s.nickname && s.isAdmin ==> s.channel in r.channels)
      && (t != s.nickname && s.isAdmin && t !in r.channels[s.channel].users ==>
            st.effect == Send([Outbound(id, t + " is not in the channel!")]))
      && (t != s.nickname && s.isAdmin && t in r.channels[s.channel].users ==>
            && t in r.clients && r.clients[t] < |r.sessions|
            && st.effect == Send([Outbound(id, t + " is connected from " + r.sessions[r.clients[t]].address + "!")]))
  {
    assert "Cannot " + "whois" + " yourself!" == "Cannot whois yourself!";
    assert "You must be a channel admin to " + "whois" + " someone!" == "You must be a channel admin to whois someone!";
    ParseWhoisLine(t);
    assert Dispatch(r, id, "/whois " + t) == OnWhois(r, id, t);
    RefusalCases(r, id, t, "whois");
  }

  /**
   * /kick T: the same three refusals as /mute; otherwise T is told, leaves
   * the channel's members and loses channel and flags, but stays
   * registered under its nickname.
   */
  lemma KickOutcome(r: Registry, id: SessionId, t: string)
    requires Valid(r) && Registered(r, id)
    requires t != "" && NoLineBreak(t)
    ensures var st := Dispatch(r, id, "/kick " + t); var s := r.sessions[id];
      && (t == s.nickname ==> st == Step(r, Send([Outbound(id, "Cannot kick yourself!")])))
      && (t != s.nickname && !s.isAdmin ==>
            st == Step(r, Send([Outbound(id, "You must be a channel admin to kick someone!")])))
      && (t != s.nickname && s.isAdmin ==> s.channel in r.channels)
      && (t != s.nickname && s.isAdmin && t !in r.channels[s.channel].users ==>
            st == Step(r, Send([Outbound(id, t + " is not in the channel!")])))
      && (t != s.nickname && s.isAdmin && t in r.channels[s.channel].users ==>
            && t in r.clients
            && var target := r.clients[t];
            && Registered(st.reg, target)
            && s.channel in st.reg.channels
            && st.effect == Send([Outbound(target, "/kicked"), Outbound(id, t + " is now kicked!")])
            && st.reg == r.(channels := r.channels[s.channel := r.channels[s.channel].(users := r.channels[s.channel].users - {t})],
                            sessions := r.sessions[target := r.sessions[target].(channel := "", isAdmin := false, isMuted := false)])
            && st.reg.sessions[target] == r.sessions[target].(channel := "", isAdmin := false, isMuted := false)
            && t !in st.reg.channels[s.channel].users
            && st.reg.clients == r.clients)
  {
    assert "Cannot " + "kick" + " yourself!" == "Cannot kick yourself!";
    assert "You must be a channel admin to " + "kick" + " someone!" == "You must be a channel admin to kick someone!";
    RefusalCases(r, id, t, "kick");
    ParseKickLine(t);
  }

  /**
   * /m P: refused in order for a payload over MAX_MSG_SIZE + 100, a caller
   * outside any channel, and a muted caller; otherwise the payload is relayed
   * to the caller's channel behind `/msg <nick> `. Nothing changes either way.
   */
  lemma SayOutcome(r: Registry, id: SessionId, p: string)
    requires Valid(r) && Registered(r, id)
    requires p != "" && NoLineBreak(p)
    ensures var st := Dispatch(r, id, "/m " + p); var s := r.sessions[id];
      && st.reg == r
      && (|p| > MaxPayloadLength ==> st.effect == Send([Outbound(id, "Message is too long!")]))
      && (|p| <= MaxPayloadLength && s.channel == "" ==>
            st.effect == Send([Outbound(id, "You must be in a channel to send messages!")]))
      && (|p| <= MaxPayloadLength && s.channel != "" && s.isMuted ==>
            st.effect == Send([Outbound(id, "You can't send messages while muted!")]))
      && (|p| <= MaxPayloadLength && s.channel != "" && !s.isMuted ==>
            st.effect == Relay(s.channel, "/msg " + s.nickname + " ", p))
  {
    ParseSayLine(p);
  }

  /** A relayed chat line reaches its sender too: the sender is a member of its own channel. */
  lemma SenderHearsItself(r: Registry, id: SessionId, p: string, out: seq<Outbound>)
    requires Valid(r) && Registered(r, id)
    requires p != "" && NoLineBreak(p)
    requires Dispatch(r, id, "/m " + p).effect.Relay?
    requires Realizes(r, Dispatch(r, id, "/m " + p).effect, out)
    ensures LinesTo(out, id) == Lines("/msg " + r.sessions[id].nickname + " ", p)
  {
    ParseSayLine(p);
    var s := r.sessions[id];
    assert SessionOk(r, s.nickname);
    assert ChannelOk(r, s.channel);
  }

}
