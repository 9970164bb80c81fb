/**
 * The chat server as an object: the registry lives in mutable fields that
 * the handlers update step by step, as Server.cpp does, and every line the
 * server writes to a connection is appended to `sent`. Each method is
 * proved against the functional specification in ServerSpec: its new
 * registry is the one the specification computes from the old one, and
 * the lines it wrote carry out the specified effect.
 */
module ServerCore {
  import opened Protocol
  import opened ServerSpec
  import ServerProps

  // ---------------------------------------------------------------------
  // Facts about delivered lines
  // ---------------------------------------------------------------------

  lemma AddressedAppend(to: SessionId, a: seq<string>, b: seq<string>)
    ensures Addressed(to, a + b) == Addressed(to, a) + Addressed(to, b)
  {
  }

  /** The lines one session receives from two batches are those of the first batch, then those of the second. */
  lemma {:induction false} LinesToAppend(a: seq<Outbound>, b: seq<Outbound>, id: SessionId)
    ensures LinesTo(a + b, id) == LinesTo(a, id) + LinesTo(b, id)
    decreases |a|
  {
    if a == [] {
      assert a + b == b;
    } else {
      assert (a + b)[1..] == a[1..] + b;
      LinesToAppend(a[1..], b, id);
    }
  }

  /** Lines addressed to one session reach that session, in order, and no other. */
  lemma {:induction false} LinesToAddressed(to: SessionId, lines: seq<string>, id: SessionId)
    ensures LinesTo(Addressed(to, lines), id) == if to == id then lines else []
    decreases |lines|
  {
    if lines != [] {
      assert Addressed(to, lines)[1..] == Addressed(to, lines[1..]);
      LinesToAddressed(to, lines[1..], id);
    }
  }

  /** One turn of messageClient: the first line goes out, the rest of the payload is still owed. */
  lemma SendFirstLine(sent: seq<Outbound>, to: SessionId, prefix: string, m: string)
    ensures |m| > MaxMsgSize ==>
      sent + Addressed(to, Lines(prefix, m)) == (sent + [Outbound(to, prefix + m[..MaxMsgSize])]) + Addressed(to, Lines(prefix, m[MaxMsgSize..]))
    ensures |m| <= MaxMsgSize ==> sent + Addressed(to, Lines(prefix, m)) == sent + [Outbound(to, prefix + m)]
  {
    LinesStep(prefix, m);
    if |m| > MaxMsgSize {
      AddressedAppend(to, [prefix + m[..MaxMsgSize]], Lines(prefix, m[MaxMsgSize..]));
    }
  }

  /** The session filed under member name `a`. */
  ghost function Member(users: map<string, SessionId>, a: string): SessionId
    requires a in users
  {
    users[a]
  }

  /** Distinct member names map to distinct sessions. */
  ghost predicate Injective(users: map<string, SessionId>) {
    forall a, b {:trigger Member(users, a), Member(users, b)} ::
      a in users && b in users && a != b ==> Member(users, a) != Member(users, b)
  }

  /** Members of a channel are held under distinct session ids. */
  lemma MembersDistinct(r: Registry, c: string)
    requires ServerSpec.Valid(r) && c in r.channels
    ensures Injective(r.channels[c].users)
  {
    assert ChannelOk(r, c);
    forall a, b | a in r.channels[c].users && b in r.channels[c].users && a != b
      ensures Member(r.channels[c].users, a) != Member(r.channels[c].users, b)
    {
      ServerProps.NamesInjective(r, a, b);
    }
  }

  lemma Suffix<T>(a: seq<T>, b: seq<T>)
    ensures (a + b)[..|a|] == a && (a + b)[|a|..] == b
  {
  }

  /** Lines written after `before`: the log keeps `before` as its start and realises sending `lines`. */
  lemma SentLines(before: seq<Outbound>, lines: seq<Outbound>)
    ensures |before| <= |before + lines| && (before + lines)[..|before|] == before
    ensures forall r :: Realizes(r, Send(lines), (before + lines)[|before|..])
  {
    Suffix(before, lines);
  }

  lemma AppendAssoc<T>(a: seq<T>, b: seq<T>, c: seq<T>)
    ensures (a + b) + c == a + (b + c)
  {
  }

  /** The lines written when the members in `served` are sent `lines`, one member after another. */
  ghost function Fanout(users: map<string, SessionId>, served: seq<string>, lines: seq<string>): seq<Outbound>
    requires forall i :: 0 <= i < |served| ==> served[i] in users
    decreases |served|
  {
    if served == [] then []
    else Fanout(users, served[..|served| - 1], lines) + Addressed(users[served[|served| - 1]], lines)
  }

  /** What one member receives from a fan-out: `lines` once if it was served, nothing otherwise. */
  lemma {:induction false} FanoutReceived(users: map<string, SessionId>, served: seq<string>, lines: seq<string>, u: string)
    requires Injective(users) && u in users
    requires forall i :: 0 <= i < |served| ==> served[i] in users
    requires forall i, j :: 0 <= i < j < |served| ==> served[i] != served[j]
    ensures LinesTo(Fanout(users, served, lines), users[u]) == if u in served then lines else []
    decreases |served|
  {
    if served != [] {
      var last := |served| - 1;
      var front, n := served[..last], served[last];
      assert served == front + [n];
      assert forall i :: 0 <= i < |front| ==> front[i] == served[i];
      FanoutReceived(users, front, lines, u);
      LinesToAppend(Fanout(users, front, lines), Addressed(users[n], lines), users[u]);
      LinesToAddressed(users[n], lines, users[u]);
      if u != n {
        assert Member(users, u) != Member(users, n);
        assert u in served <==> u in front;
      } else {
        forall i | 0 <= i < |front|
          ensures front[i] != u
        {
          assert served[i] != served[last];
        }
        assert u in served && u !in front;
      }
    }
  }

  /** A fan-out only writes to members. */
  lemma {:induction false} FanoutAddressees(users: map<string, SessionId>, served: seq<string>, lines: seq<string>)
    requires forall i :: 0 <= i < |served| ==> served[i] in users
    ensures forall k :: 0 <= k < |Fanout(users, served, lines)| ==> Fanout(users, served, lines)[k].to in users.Values
    decreases |served|
  {
    if served != [] {
      var front, n := served[..|served| - 1], served[|served| - 1];
      FanoutAddressees(users, front, lines);
      assert users[n] in users.Values;
    }
  }

  /** Serving every member of a channel once is a multicast of the payload to it. */
  lemma FanoutIsMulticast(r: Registry, c: string, prefix: string, message: string, served: seq<string>)
    requires c in r.channels && Injective(r.channels[c].users)
    requires forall i :: 0 <= i < |served| ==> served[i] in r.channels[c].users
    requires forall i, j :: 0 <= i < j < |served| ==> served[i] != served[j]
    requires forall u :: u in r.channels[c].users ==> u in served
    ensures IsMulticast(r, c, prefix, message, Fanout(r.channels[c].users, served, Lines(prefix, message)))
  {
    var users := r.channels[c].users;
    forall u | u in users
      ensures LinesTo(Fanout(users, served, Lines(prefix, message)), users[u]) == Lines(prefix, message)
    {
      FanoutReceived(users, served, Lines(prefix, message), u);
    }
    FanoutAddressees(users, served, Lines(prefix, message));
  }

  class Server {
    var sessions: seq<Session>
    var clients: map<string, SessionId>
    var channels: map<string, Channel>
    var nicknameCounter: nat
    /** Every line written to a connection so far, in order. */
    var sent: seq<Outbound>
    /** Connections that have been shut down and closed. */
    var closed: set<SessionId>

    ghost function Abs(): Registry
      reads this
    {
      Registry(sessions, clients, channels, nicknameCounter)
    }

    ghost predicate Valid()
      reads this
    {
      ServerSpec.Valid(Abs())
    }

    /** A server with no sessions and no channels; nicknames start at Client_1. */
    constructor()
      ensures Valid() && Abs() == Empty
      ensures sent == [] && closed == {}
    {
      sessions := [];
      clients := map[];
      channels := map[];
      nicknameCounter := 1;
      sent := [];
      closed := {};
    }

    /** sendMessage: one line written to one connection. */
    method SendMessage(line: string, to: SessionId)
      modifies this
      ensures sent == old(sent) + [Outbound(to, line)]
      ensures Abs() == old(Abs()) && closed == old(closed)
    {
      sent := sent + [Outbound(to, line)];
    }

    /** messageClient: the payload goes out in full pieces, then the rest, each behind the prefix. */
    method MessageClient(message: string, to: SessionId, prefix: string)
      modifies this
      ensures sent == old(sent) + Addressed(to, Lines(prefix, message))
      ensures Abs() == old(Abs()) && closed == old(closed)
    {
      var m := message;
      while |m| > MaxMsgSize
        invariant sent + Addressed(to, Lines(prefix, m)) == old(sent) + Addressed(to, Lines(prefix, message))
        invariant Abs() == old(Abs()) && closed == old(closed)
        decreases |m|
      {
        var piece := m[..MaxMsgSize];
        SendFirstLine(sent, to, prefix, m);
        m := m[MaxMsgSize..];
        SendMessage(prefix + piece, to);
      }
      SendFirstLine(sent, to, prefix, m);
      SendMessage(prefix + m, to);
    }

    /** multicastMessage: every member of the channel, in the map's order, receives the payload. */
    method MulticastMessage(message: string, channel: string, prefix: string)
      requires channel in channels ==> Injective(channels[channel].users)
      modifies this
      ensures Abs() == old(Abs()) && closed == old(closed)
      ensures |old(sent)| <= |sent| && sent[..|old(sent)|] == old(sent)
      ensures IsMulticast(Abs(), channel, prefix, message, sent[|old(sent)|..])
    {
      if channel !in channels {
        return;
      }
      var users := channels[channel].users;
      var pending := users.Keys;
      ghost var served: seq<string> := [];
      ghost var lines := Lines(prefix, message);
      while pending != {}
        invariant pending <= users.Keys
        invariant forall i :: 0 <= i < |served| ==> served[i] in users && served[i] !in pending
        invariant forall i, j :: 0 <= i < j < |served| ==> served[i] != served[j]
        invariant forall u :: u in users && u !in pending ==> u in served
        invariant Abs() == old(Abs()) && closed == old(closed)
        invariant sent == old(sent) + Fanout(users, served, lines)
        decreases |pending|
      {
        var n :| n in pending;
        MessageClient(message, users[n], prefix);
        ghost var served' := served + [n];
        assert served'[..|served'| - 1] == served;
        AppendAssoc(old(sent), Fanout(users, served, lines), Addressed(users[n], lines));
        served := served';
        pending := pending - {n};
      }
      assert sent[|old(sent)|..] == Fanout(users, served, lines);
      FanoutIsMulticast(Abs(), channel, prefix, message, served);
    }

    /** nickNameAvailable: free exactly when no live session holds the name. */
    method NickNameAvailable(nickname: string) returns (available: bool)
      ensures available <==> nickname !in clients
      ensures Valid() ==> (available <==> forall id: SessionId :: Registered(Abs(), id) ==> sessions[id].nickname != nickname)
    {
      available := nickname !in clients;
      if !available && Valid() {
        assert Registered(Abs(), clients[nickname]);
      }
    }

    /** channelExists: a lookup by key; in a valid registry, a channel is known exactly under its own, valid, name. */
    method ChannelExists(channel: string) returns (exists_: bool)
      ensures exists_ <==> channel in channels
      ensures Valid() ==> (exists_ <==> exists c :: c in channels.Values && c.name == channel)
      ensures Valid() && exists_ ==> ValidChannelName(channel)
    {
      exists_ := channel in channels;
      if Valid() {
        if exists_ {
          assert ChannelOk(Abs(), channel);
          assert channels[channel] in channels.Values;
        } else {
          forall c | c in channels.Values
            ensures c.name != channel
          {
            var key :| key in channels && channels[key] == c;
            assert ChannelOk(Abs(), key);
          }
        }
      }
    }

    /** getNextNickname: the first free Client_<k> from the counter on; the counter moves past it. */
    method GetNextNickname() returns (nickname: string)
      modifies this
      ensures var k := FirstFreeIndex(old(clients), old(nicknameCounter));
        nickname == ClientName(k) && nicknameCounter == k + 1
      ensures sessions == old(sessions) && clients == old(clients) && channels == old(channels)
      ensures sent == old(sent) && closed == old(closed)
    {
      ghost var goal := FirstFreeIndex(clients, nicknameCounter);
      nickname := ClientName(nicknameCounter);
      nicknameCounter := nicknameCounter + 1;
      var free := NickNameAvailable(nickname);
      while !free
        invariant old(nicknameCounter) < nicknameCounter <= goal + 1
        invariant nickname == ClientName(nicknameCounter - 1)
        invariant FirstFreeIndex(clients, nicknameCounter - 1) == goal
        invariant free <==> nickname !in clients
        invariant sessions == old(sessions) && clients == old(clients) && channels == old(channels)
        invariant sent == old(sent) && closed == old(closed)
        decreases goal + 1 - nicknameCounter
      {
        nickname := ClientName(nicknameCounter);
        nicknameCounter := nicknameCounter + 1;
        free := NickNameAvailable(nickname);
      }
    }

    /** The admission step of _accept: a fresh session under the next free nickname. */
    method Admit(address: string) returns (id: SessionId)
      requires Valid()
      modifies this
      ensures Valid() && Registered(Abs(), id)
      ensures (Abs(), id) == OnAdmit(old(Abs()), address)
      ensures sent == old(sent) && closed == old(closed)
    {
      ServerProps.AdmitKeepsValid(Abs(), address);
      var nickname := GetNextNickname();
      id := |sessions|;
      sessions := sessions + [Session(nickname, "", false, false, address)];
      clients := clients[nickname := id];
    }

    /** closeClient: the session leaves the nickname map and its channel, and its connection is closed. */
    method CloseClient(id: SessionId)
      requires id < |sessions|
      requires sessions[id].channel != "" ==> sessions[id].channel in channels
      modifies this
      ensures var s := old(sessions[id]);
        && clients == old(clients) - {s.nickname}
        && channels == (if s.channel != "" then
                          old(channels)[s.channel := old(channels)[s.channel].(users := old(channels)[s.channel].users - {s.nickname})]
                        else old(channels))
      ensures sessions == old(sessions) && nicknameCounter == old(nicknameCounter)
      ensures sent == old(sent) && closed == old(closed) + {id}
    {
      var s := sessions[id];
      clients := clients - {s.nickname};
      if s.channel != "" {
        var ch := channels[s.channel];
        channels := channels[s.channel := ch.(users := ch.users - {s.nickname})];
      }
      closed := closed + {id};
    }

    /** The empty-read branch of handleMessage: the nickname is dropped, then closeClient runs (and drops it again). */
    method HandleClose(id: SessionId)
      requires Valid() && Registered(Abs(), id)
      modifies this
      ensures Abs() == OnClose(old(Abs()), id).reg
      ensures sent == old(sent) && closed == old(closed) + {id}
    {
      var s := sessions[id];
      assert SessionOk(Abs(), s.nickname);
      clients := clients - {s.nickname};
      ghost var once := clients;
      CloseClient(id);
      assert clients == once;
    }

    /** The /nickname branch of handleMessage. */
    method HandleNickname(id: SessionId, x: string)
      requires Valid() && Registered(Abs(), id)
      modifies this
      ensures Abs() == OnNickname(old(Abs()), id, x).reg
      ensures sent == old(sent) + OnNickname(old(Abs()), id, x).effect.lines
      ensures closed == old(closed)
    {
      ghost var r := Abs();
      var available := NickNameAvailable(x);
      if available {
        if |x| > MaxNicknameLength {
          assert OnNickname(r, id, x) == Reply(r, id, "Nickname too long!");
          SendMessage("Nickname too long!", id);
        } else {
          var s := sessions[id];
          assert SessionOk(r, s.nickname);
          ghost var post := OnNickname(r, id, x).reg;
          if s.channel != "" {
            var ch := channels[s.channel];
            ch := ch.(users := ch.users - {s.nickname});
            ch := ch.(users := ch.users[x := id]);
            if s.isAdmin {
              ch := ch.(admin := x);
            }
            channels := channels[s.channel := ch];
          }
          assert channels == post.channels;
          clients := clients - {s.nickname};
          sessions := sessions[id := s.(nickname := x)];
          clients := clients[x := id];
          assert sessions == post.sessions && clients == post.clients;
          SendMessage("/youare " + x, id);
        }
      } else {
        assert OnNickname(r, id, x) == Reply(r, id, "Nickname: " + x + " already taken!");
        SendMessage("Nickname: " + x + " already taken!", id);
      }
    }

    /** The /join branch of handleMessage. */
    method HandleJoin(id: SessionId, name: string)
      requires Valid() && Registered(Abs(), id)
      modifies this
      ensures Abs() == OnJoin(old(Abs()), id, name).reg
      ensures sent == old(sent) + OnJoin(old(Abs()), id, name).effect.lines
      ensures closed == old(closed)
    {
      ghost var r := Abs();
      if !ValidChannelName(name) {
        assert OnJoin(r, id, name) == Reply(r, id, "Invalid channel name according with RFC 1459!");
        SendMessage("Invalid channel name according with RFC 1459!", id);
        return;
      }
      var s := sessions[id];
      assert SessionOk(r, s.nickname);
      if s.isAdmin {
        assert OnJoin(r, id, name) == Reply(r, id, "You can't leave a channel you administrate!");
        SendMessage("You can't leave a channel you administrate!", id);
        return;
      }
      ghost var post := OnJoin(r, id, name);
      if s.channel != "" {
        var old_ := channels[s.channel];
        channels := channels[s.channel := old_.(users := old_.users - {s.nickname})];
        s := s.(isMuted := false, isAdmin := false);
      }
      var exists_ := name in channels;
      if !exists_ {
        channels := channels[name := Channel(name, s.nickname, map[])];
        s := s.(isAdmin := true);
      }
      var ch := channels[name];
      channels := channels[name := ch.(users := ch.users[s.nickname := id])];
      s := s.(channel := name);
      sessions := sessions[id := s];
      assert channels == post.reg.channels && sessions == post.reg.sessions;
      assert post.effect.lines == [Outbound(id, "/joined " + name + " " + RoleWord(s.isAdmin))];
      SendMessage("/joined " + name + " " + RoleWord(s.isAdmin), id);
    }

    /**
     * The checks /mute, /unmute, /whois and /kick share: the refusal to
     * send, if any, and otherwise the member the command is about.
     */
    method CheckModeration(id: SessionId, t: string, verb: string) returns (refusal: Option<string>, target: SessionId)
      requires Valid() && Registered(Abs(), id)
      ensures refusal == ModerationRefusal(Abs(), id, t, verb)
      ensures refusal.None? ==> ModerationRefusal(Abs(), id, t, "mute").None? && target == Target(Abs(), id, t)
    {
      var s := sessions[id];
      assert SessionOk(Abs(), s.nickname);
      target := 0;
      if t == s.nickname {
        refusal := Some("Cannot " + verb + " yourself!");
      } else if !s.isAdmin {
        refusal := Some("You must be a channel admin to " + verb + " someone!");
      } else {
        var users := channels[s.channel].users;
        if t !in users {
          refusal := Some(t + " is not in the channel!");
        } else {
          refusal := None;
          target := users[t];
        }
      }
    }

    /** The /mute (`mute` true) and /unmute (`mute` false) branches of handleMessage. */
    method HandleMute(id: SessionId, t: string, mute: bool)
      requires Valid() && Registered(Abs(), id)
      modifies this
      ensures Abs() == OnMute(old(Abs()), id, t, mute).reg
      ensures sent == old(sent) + OnMute(old(Abs()), id, t, mute).effect.lines
      ensures closed == old(closed)
    {
      ghost var r := Abs();
      var verb := if mute then "mute" else "unmute";
      var refusal, target := CheckModeration(id, t, verb);
      if refusal.Some? {
        assert OnMute(r, id, t, mute) == Reply(r, id, refusal.value);
        SendMessage(refusal.value, id);
        return;
      }
      if sessions[target].isMuted == mute {
        assert OnMute(r, id, t, mute) == Reply(r, id, t + " is already " + verb + "d!");
        SendMessage(t + " is already " + verb + "d!", id);
        return;
      }
      ghost var post := OnMute(r, id, t, mute);
      sessions := sessions[target := sessions[target].(isMuted := mute)];
      assert sessions == post.reg.sessions;
      assert post.effect.lines == [Outbound(target, "/" + verb + "d"), Outbound(id, t + " is now " + verb + "d!")];
      SendMessage("/" + verb + "d", target);
      SendMessage(t + " is now " + verb + "d!", id);
    }

    /** The /whois branch of handleMessage; `address` stands for the target connection's reported address. */
    method HandleWhois(id: SessionId, t: string)
      requires Valid() && Registered(Abs(), id)
      modifies this
      ensures Abs() == old(Abs()) == OnWhois(old(Abs()), id, t).reg
      ensures sent == old(sent) + OnWhois(old(Abs()), id, t).effect.lines
      ensures closed == old(closed)
    {
      var refusal, target := CheckModeration(id, t, "whois");
      if refusal.Some? {
        SendMessage(refusal.value, id);
        return;
      }
      var ipAddress := sessions[target].address;
      SendMessage(t + " is connected from " + ipAddress + "!", id);
    }

    /** The /kick branch of handleMessage. */
    method HandleKick(id: SessionId, t: string)
      requires Valid() && Registered(Abs(), id)
      modifies this
      ensures Abs() == OnKick(old(Abs()), id, t).reg
      ensures sent == old(sent) + OnKick(old(Abs()), id, t).effect.lines
      ensures closed == old(closed)
    {
      ghost var r := Abs();
      var refusal, target := CheckModeration(id, t, "kick");
      if refusal.Some? {
        assert OnKick(r, id, t) == Reply(r, id, refusal.value);
        SendMessage(refusal.value, id);
        return;
      }
      ghost var post := OnKick(r, id, t);
      var channel := sessions[id].channel;
      SendMessage("/kicked", target);
      var ch := channels[channel];
      channels := channels[channel := ch.(users := ch.users - {t})];
      var ts := sessions[target];
      ts := ts.(channel := "");
      ts := ts.(isAdmin := false);
      ts := ts.(isMuted := false);
      sessions := sessions[target := ts];
      assert channels == post.reg.channels && sessions == post.reg.sessions;
      assert post.effect.lines == [Outbound(target, "/kicked"), Outbound(id, t + " is now kicked!")];
      SendMessage(t + " is now kicked!", id);
    }

    /** The /m branch of handleMessage. */
    method HandleSay(id: SessionId, p: string)
      requires Valid() && Registered(Abs(), id)
      modifies this
      ensures Abs() == old(Abs()) == OnSay(old(Abs()), id, p).reg
      ensures |old(sent)| <= |sent| && sent[..|old(sent)|] == old(sent)
      ensures Realizes(old(Abs()), OnSay(old(Abs()), id, p).effect, sent[|old(sent)|..])
      ensures closed == old(closed)
    {
      var s := sessions[id];
      if |p| > MaxPayloadLength {
        SendMessage("Message is too long!", id);
        return;
      }
      if s.channel == "" {
        SendMessage("You must be in a channel to send messages!", id);
        return;
      }
      if s.isMuted {
        SendMessage("You can't send messages while muted!", id);
        return;
      }
      MembersDistinct(Abs(), s.channel);
      MulticastMessage(p, s.channel, "/msg " + s.nickname + " ");
    }

    /** The moderation branches of handleMessage: /mute, /unmute, /whois and /kick. */
    method HandleModeration(id: SessionId, cmd: Command)
      requires Valid() && Registered(Abs(), id)
      requires cmd.Mute? || cmd.Unmute? || cmd.Whois? || cmd.Kick?
      modifies this
      ensures Valid()
      ensures Abs() == Execute(old(Abs()), id, cmd).reg
      ensures |old(sent)| <= |sent| && sent[..|old(sent)|] == old(sent)
      ensures Realizes(old(Abs()), Execute(old(Abs()), id, cmd).effect, sent[|old(sent)|..])
      ensures closed == old(closed)
    {
      ghost var r := Abs();
      match cmd {
        case Mute(t) =>
          assert Execute(r, id, cmd) == OnMute(r, id, t, true);
          HandleMute(id, t, true);
          assert Abs() == OnMute(r, id, t, true).reg;
          SentLines(old(sent), OnMute(r, id, t, true).effect.lines);
          ServerProps.MuteKeepsValid(r, id, t, true);
        case Unmute(t) =>
          assert Execute(r, id, cmd) == OnMute(r, id, t, false);
          HandleMute(id, t, false);
          assert Abs() == OnMute(r, id, t, false).reg;
          SentLines(old(sent), OnMute(r, id, t, false).effect.lines);
          ServerProps.MuteKeepsValid(r, id, t, false);
        case Whois(t) =>
          assert Execute(r, id, cmd) == OnWhois(r, id, t);
          HandleWhois(id, t);
          assert Abs() == OnWhois(r, id, t).reg;
          SentLines(old(sent), OnWhois(r, id, t).effect.lines);
        case Kick(t) =>
          assert Execute(r, id, cmd) == OnKick(r, id, t);
          HandleKick(id, t);
          assert Abs() == OnKick(r, id, t).reg;
          SentLines(old(sent), OnKick(r, id, t).effect.lines);
          ServerProps.KickKeepsValid(r, id, t);
      }
    }

    /**
     * The branch of handleMessage that a recognised command takes. The new
     * registry is the one Execute specifies, the lines written carry out
     * its effect, and the registry invariant holds again afterwards.
     */
    method HandleCommand(id: SessionId, cmd: Command)
      requires Valid() && Registered(Abs(), id)
      modifies this
      ensures Valid()
      ensures Abs() == Execute(old(Abs()), id, cmd).reg
      ensures |old(sent)| <= |sent| && sent[..|old(sent)|] == old(sent)
      ensures Realizes(old(Abs()), Execute(old(Abs()), id, cmd).effect, sent[|old(sent)|..])
      ensures closed == if cmd.Close? then old(closed) + {id} else old(closed)
    {
      ghost var r := Abs();
      match cmd {
        case Close =>
          assert Execute(r, id, cmd) == OnClose(r, id);
          HandleClose(id);
          assert Abs() == OnClose(r, id).reg;
          SentLines(old(sent), []);
          ServerProps.CloseKeepsValid(r, id);
        case WhoAmI =>
          assert Execute(r, id, cmd) == Reply(r, id, "/youare " + r.sessions[id].nickname);
          SendMessage("/youare " + sessions[id].nickname, id);
          SentLines(old(sent), [Outbound(id, "/youare " + r.sessions[id].nickname)]);
        case Ping =>
          assert Execute(r, id, cmd) == Reply(r, id, "pong");
          SendMessage("pong", id);
          SentLines(old(sent), [Outbound(id, "pong")]);
        case Nickname(x) =>
          assert Execute(r, id, cmd) == OnNickname(r, id, x);
          HandleNickname(id, x);
          assert Abs() == OnNickname(r, id, x).reg;
          SentLines(old(sent), OnNickname(r, id, x).effect.lines);
          ServerProps.NicknameKeepsValid(r, id, x);
        case Join(name) =>
          assert Execute(r, id, cmd) == OnJoin(r, id, name);
          HandleJoin(id, name);
          assert Abs() == OnJoin(r, id, name).reg;
          SentLines(old(sent), OnJoin(r, id, name).effect.lines);
          ServerProps.JoinKeepsValid(r, id, name);
        case Mute(_) =>
          HandleModeration(id, cmd);
        case Unmute(_) =>
          HandleModeration(id, cmd);
        case Whois(_) =>
          HandleModeration(id, cmd);
        case Kick(_) =>
          HandleModeration(id, cmd);
        case Say(p) =>
          assert Execute(r, id, cmd) == OnSay(r, id, p);
          HandleSay(id, p);
          assert Abs() == OnSay(r, id, p).reg;
        case Ignored =>
          assert Execute(r, id, cmd) == Step(r, Send([]));
          SentLines(old(sent), []);
      }
    }

    /**
     * handleMessage: one inbound line from session `id`, taken apart by the
     * tests of the original in their order (ParseCommand) and handed to the
     * matching branch. The new registry is the one Dispatch specifies, the
     * lines written carry out its effect, and the registry invariant holds
     * again afterwards; only the empty read closes the connection.
     */
    method HandleMessage(id: SessionId, message: string)
      requires Valid() && Registered(Abs(), id)
      modifies this
      ensures Valid()
      ensures Abs() == Dispatch(old(Abs()), id, message).reg
      ensures |old(sent)| <= |sent| && sent[..|old(sent)|] == old(sent)
      ensures Realizes(old(Abs()), Dispatch(old(Abs()), id, message).effect, sent[|old(sent)|..])
      ensures closed == if message == "" then old(closed) + {id} else old(closed)
    {
      var cmd := ParseCommand(message);
      HandleCommand(id, cmd);
    }
  }
}
