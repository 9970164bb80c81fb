/**
 * The server and the client together: what a client's mirror of its own
 * session becomes when it reads the lines the server sends it, and how the
 * client's outgoing chat lines are read by the server. Where the two sides
 * agree this is proved; where they drift apart the drift is exhibited.
 */
module Conversation {
  import opened Protocol
  import opened ServerSpec
  import opened ServerProps
  import opened ServerCommands
  import opened ClientSpec
  import opened ClientProps

  // ---------------------------------------------------------------------
  // Nicknames handed out on admission are single words
  // ---------------------------------------------------------------------

  /** Every character of a rendered number is a decimal digit. */
  lemma {:induction false} NatToStringDigits(n: nat)
    ensures forall i :: 0 <= i < |NatToString(n)| ==> '0' <= NatToString(n)[i] <= '9'
    decreases n
  {
    if n >= 10 {
      NatToStringDigits(n / 10);
      var s := NatToString(n);
      assert s == NatToString(n / 10) + [DigitChar(n % 10)];
    }
  }

  /** `Client_<n>` has no whitespace and does not end like a reply keyword. */
  lemma ClientNameIsWord(k: nat)
    ensures ClientName(k) != [] && NoWhitespace(ClientName(k))
    ensures !EndsWith(ClientName(k), "/youare") && !EndsWith(ClientName(k), "/joined")
  {
    var s := ClientName(k);
    NatToStringDigits(k);
    assert forall i :: |NicknameStem| <= i < |s| ==> s[i] == NatToString(k)[i - |NicknameStem|];
    assert s[|s| - 1] == NatToString(k)[|NatToString(k)| - 1];
  }

  // ---------------------------------------------------------------------
  // Replies the client reads back faithfully
  // ---------------------------------------------------------------------

  /**
   * Right after admission the client asks who it is; the reply sets its
   * mirror's nickname to the one the server allocated.
   */
  lemma ConnectLearnsNickname(r: Registry, address: string, m: Mirror)
    requires Valid(r)
    ensures var (r', id) := OnAdmit(r, address);
      && Valid(r') && Registered(r', id)
      && var st := Dispatch(r', id, "/whoami");
      && st.reg == r'
      && st.effect.Send? && |st.effect.lines| == 1 && st.effect.lines[0].to == id
      && OnLine(m, st.effect.lines[0].line) == (m.(nickname := r'.sessions[id].nickname), Ignore)
  {
    AdmitOutcome(r, address);
    AdmitKeepsValid(r, address);
    var (r', id) := OnAdmit(r, address);
    WhoAmIAndPing(r', id);
    var k :| r.nicknameCounter <= k && r'.sessions[id].nickname == ClientName(k);
    ClientNameIsWord(k);
    YouAreRoundTrip(ClientName(k));
  }

  /** An accepted `/nickname X` sets the caller's mirror to X, the name the server now holds. */
  lemma RenameSync(r: Registry, id: SessionId, x: string, m: Mirror)
    requires Valid(r) && Registered(r, id)
    requires x != "" && NoLineBreak(x) && x !in r.clients && |x| <= MaxNicknameLength
    ensures var st := Dispatch(r, id, "/nickname " + x);
      && st.effect.Send? && |st.effect.lines| == 1 && st.effect.lines[0].to == id
      && OnLine(m, st.effect.lines[0].line) == (m.(nickname := st.reg.sessions[id].nickname), Ignore)
      && st.reg.sessions[id].nickname == x
  {
    NicknameOutcome(r, id, x);
    YouAreRoundTrip(x);
  }

  /**
   * An accepted `/join C` sets the caller's mirror to channel C and to the
   * role the server granted, as long as C does not end in `/youare`.
   */
  lemma JoinSync(r: Registry, id: SessionId, name: string, m: Mirror)
    requires Valid(r) && Registered(r, id)
    requires ValidChannelName(name) && !r.sessions[id].isAdmin && !EndsWith(name, "/youare")
    ensures var st := Dispatch(r, id, "/join " + name);
      && st.effect.Send? && |st.effect.lines| == 1 && st.effect.lines[0].to == id && id < |st.reg.sessions|
      && OnLine(m, st.effect.lines[0].line)
         == (m.(channel := st.reg.sessions[id].channel, isAdmin := st.reg.sessions[id].isAdmin), Ignore)
  {
    AcceptedJoinReply(r, id, name);
    JoinedNotice(name, RoleWord(name !in r.channels), m);
  }

  /** The reply to an accepted `/join C`, and the caller's channel and role after it. */
  lemma AcceptedJoinReply(r: Registry, id: SessionId, name: string)
    requires Valid(r) && Registered(r, id)
    requires ValidChannelName(name) && !r.sessions[id].isAdmin
    ensures var st := Dispatch(r, id, "/join " + name);
      && st.effect == Send([Outbound(id, "/joined " + name + " " + RoleWord(name !in r.channels))])
      && id < |st.reg.sessions| && st.reg.sessions[id].channel == name
      && st.reg.sessions[id].isAdmin == (name !in r.channels)
  {
    ChannelNameIsWord(name);
    JoinOutcome(r, id, name);
  }

  /** A `/joined C <role>` notice moves the mirror to channel C with that role. */
  lemma JoinedNotice(name: string, role: string, m: Mirror)
    requires ValidChannelName(name) && !EndsWith(name, "/youare") && (role == "admin" || role == "user")
    ensures OnLine(m, "/joined " + name + " " + role) == (m.(channel := name, isAdmin := role == "admin"), Ignore)
  {
    ChannelNameIsWord(name);
    JoinedRoundTrip(name, role);
  }

  /** A valid channel name is one non-empty word. */
  lemma ChannelNameIsWord(name: string)
    requires ValidChannelName(name)
    ensures name != "" && NoWhitespace(name) && NoLineBreak(name)
  {
    forall i | 0 <= i < |name|
      ensures !IsWhitespace(name[i])
    {
      if i > 0 {
        assert IsChannelChar(name[i]);
      }
    }
  }

  /** The `/muted` notice sets the target's mirror flag, as the server now holds it. */
  lemma MuteSync(r: Registry, id: SessionId, t: string, m: Mirror)
    requires Valid(r) && Registered(r, id)
    requires t != "" && NoLineBreak(t) && t != r.sessions[id].nickname && r.sessions[id].isAdmin
    requires r.sessions[id].channel in r.channels && t in r.channels[r.sessions[id].channel].users
    requires t in r.clients && r.clients[t] < |r.sessions| && !r.sessions[r.clients[t]].isMuted
    ensures var st := Dispatch(r, id, "/mute " + t); var target := r.clients[t];
      && st.effect.Send? && |st.effect.lines| == 2 && st.effect.lines[0] == Outbound(target, "/muted")
      && target < |st.reg.sessions| && st.reg.sessions[target].isMuted
      && OnLine(m, "/muted") == (m.(isMuted := true), Ignore)
  {
    MuteOutcome(r, id, t);
    ControlLines(m);
  }

  /** The `/unmuted` notice clears the target's mirror flag, as the server now holds it. */
  lemma UnmuteSync(r: Registry, id: SessionId, t: string, m: Mirror)
    requires Valid(r) && Registered(r, id)
    requires t != "" && NoLineBreak(t) && t != r.sessions[id].nickname && r.sessions[id].isAdmin
    requires r.sessions[id].channel in r.channels && t in r.channels[r.sessions[id].channel].users
    requires t in r.clients && r.clients[t] < |r.sessions| && r.sessions[r.clients[t]].isMuted
    ensures var st := Dispatch(r, id, "/unmute " + t); var target := r.clients[t];
      && st.effect.Send? && |st.effect.lines| == 2 && st.effect.lines[0] == Outbound(target, "/unmuted")
      && target < |st.reg.sessions| && !st.reg.sessions[target].isMuted
      && OnLine(m, "/unmuted") == (m.(isMuted := false), Ignore)
  {
    UnmuteOutcome(r, id, t);
    ControlLines(m);
  }

  /**
   * A chat payload that fits one line reaches every member as
   * `/msg <nick> <payload>`, which their clients show as `<nick>: <payload>`
   * when the sender's nickname is an allocated one and the payload does not
   * spell out a reply keyword.
   */
  lemma ChatSync(r: Registry, id: SessionId, p: string, k: nat, m: Mirror)
    requires Valid(r) && Registered(r, id) && r.sessions[id].nickname == ClientName(k)
    requires r.sessions[id].channel != "" && !r.sessions[id].isMuted
    requires p != "" && NoLineBreak(p) && |p| <= MaxMsgSize
    requires !Contains(p, "/youare ") && !Contains(p, "/joined ")
    ensures var prefix := "/msg " + ClientName(k) + " ";
      && Dispatch(r, id, "/m " + p).effect == Relay(r.sessions[id].channel, prefix, p)
      && Lines(prefix, p) == [prefix + p]
      && OnLine(m, prefix + p) == (m, Display(ClientName(k) + ": " + p))
  {
    AcceptedSay(r, id, p);
    LinesStep("/msg " + ClientName(k) + " ", p);
    ClientNameIsWord(k);
    ChatLineShown(ClientName(k), p, m);
  }

  /** A chat payload from an unmuted member of a channel is relayed to that channel. */
  lemma AcceptedSay(r: Registry, id: SessionId, p: string)
    requires Valid(r) && Registered(r, id)
    requires r.sessions[id].channel != "" && !r.sessions[id].isMuted
    requires p != "" && NoLineBreak(p) && |p| <= MaxPayloadLength
    ensures Dispatch(r, id, "/m " + p).effect == Relay(r.sessions[id].channel, "/msg " + r.sessions[id].nickname + " ", p)
  {
    SayOutcome(r, id, p);
  }

  /** A `/msg <from> <text>` line is shown as `<from>: <text>`. */
  lemma ChatLineShown(from: string, text: string, m: Mirror)
    requires from != "" && NoWhitespace(from) && !EndsWith(from, "/youare") && !EndsWith(from, "/joined")
    requires text != "" && NoLineBreak(text) && !Contains(text, "/youare ") && !Contains(text, "/joined ")
    ensures OnLine(m, "/msg " + from + " " + text) == (m, Display(from + ": " + text))
  {
    ChatRoundTrip(from, text);
  }

  // ---------------------------------------------------------------------
  // Where the two sides drift apart
  // ---------------------------------------------------------------------

  /**
   * Kicking a muted member clears its mute flag on the server, but the
   * `/kicked` notice leaves the flag set in the member's own mirror: its
   * client still believes it is muted.
   */
  lemma KickLeavesStaleMute(r: Registry, id: SessionId, t: string, m: Mirror)
    requires Valid(r) && Registered(r, id)
    requires t != "" && NoLineBreak(t) && t != r.sessions[id].nickname && r.sessions[id].isAdmin
    requires r.sessions[id].channel in r.channels && t in r.channels[r.sessions[id].channel].users
    requires t in r.clients && r.clients[t] < |r.sessions| && r.sessions[r.clients[t]].isMuted && m.isMuted
    ensures var st := Dispatch(r, id, "/kick " + t); var target := r.clients[t];
      && st.effect.Send? && |st.effect.lines| == 2 && st.effect.lines[0] == Outbound(target, "/kicked")
      && target < |st.reg.sessions| && !st.reg.sessions[target].isMuted
      && OnLine(m, "/kicked").0.isMuted
      && OnLine(m, "/kicked").0.channel == st.reg.sessions[target].channel == ""
      && OnLine(m, "/kicked").0.isAdmin == st.reg.sessions[target].isAdmin == false
  {
    KickOutcome(r, id, t);
    ControlLines(m);
  }

  /**
   * Joining a channel named `#/youare` is accepted by the server, but the
   * reply makes the client take its role word for a new nickname and leaves
   * its channel unchanged.
   */
  lemma JoinReplyCanRename(r: Registry, id: SessionId, m: Mirror)
    requires Valid(r) && Registered(r, id) && !r.sessions[id].isAdmin
    ensures var st := Dispatch(r, id, "/join #/youare"); var role := RoleWord("#/youare" !in r.channels);
      && id < |st.reg.sessions| && st.reg.sessions[id].channel == "#/youare"
      && st.reg.sessions[id].isAdmin == ("#/youare" !in r.channels)
      && st.effect == Send([Outbound(id, "/joined #/youare " + role)])
      && OnLine(m, "/joined #/youare " + role) == (m.(nickname := role), Ignore)
  {
    var name := "#/youare";
    assert "/join " + name == "/join #/youare";
    assert ValidChannelName(name);
    var role := RoleWord(name !in r.channels);
    assert "/joined " + name + " " + role == "/joined #/youare " + role;
    AcceptedJoinReply(r, id, name);
    YouAreChannelNotice(role, m);
  }

  /** The client reading `/joined #/youare <role>` takes the role word as its nickname. */
  lemma YouAreChannelNotice(role: string, m: Mirror)
    requires role == "admin" || role == "user"
    ensures OnLine(m, "/joined #/youare " + role) == (m.(nickname := role), Ignore)
  {
    ChannelNameCanRename(role);
  }

  /** A member who says `/youare root` renames every other member's client to `root`. */
  lemma ChatCanRenameOthers(r: Registry, id: SessionId, m: Mirror)
    requires Valid(r) && Registered(r, id) && r.sessions[id].nickname == "eve"
    requires r.sessions[id].channel != "" && !r.sessions[id].isMuted
    ensures Dispatch(r, id, "/m /youare root").effect == Relay(r.sessions[id].channel, "/msg eve ", "/youare root")
    ensures Lines("/msg eve ", "/youare root") == ["/msg eve /youare root"]
    ensures OnLine(m, "/msg eve /youare root") == (m.(nickname := "root"), Ignore)
  {
    var p := "/youare root";
    assert "/m " + p == "/m /youare root";
    assert "/msg eve " + p == "/msg eve /youare root";
    SayYouAreRoot(r, id, p);
    YouAreRootRenames(m);
  }

  /** The server relays `/m /youare root` from `eve` as one `/msg eve /youare root` line. */
  lemma SayYouAreRoot(r: Registry, id: SessionId, p: string)
    requires Valid(r) && Registered(r, id) && r.sessions[id].nickname == "eve"
    requires r.sessions[id].channel != "" && !r.sessions[id].isMuted
    requires p == "/youare root"
    ensures Dispatch(r, id, "/m " + p).effect == Relay(r.sessions[id].channel, "/msg eve ", p)
    ensures Lines("/msg eve ", p) == ["/msg eve " + p]
  {
    assert NoLineBreak(p);
    assert "/msg " + "eve" + " " == "/msg eve ";
    AcceptedSay(r, id, p);
    LinesStep("/msg eve ", p);
  }

  /** The client reading `/msg eve /youare root` takes `root` as its own nickname. */
  lemma YouAreRootRenames(m: Mirror)
    ensures OnLine(m, "/msg eve /youare root") == (m.(nickname := "root"), Ignore)
  {
    ChatTextCanRename();
  }

  // ---------------------------------------------------------------------
  // The client's outgoing chat lines as the server reads them
  // ---------------------------------------------------------------------

  /**
   * Each line `MessageServer` sends for a non-empty payload is read by the
   * server as `/m` with the corresponding piece, and no piece is refused
   * as too long.
   */
  lemma ClientChunksAccepted(message: string, i: nat)
    requires message != "" && NoLineBreak(message) && i < |Lines("/m ", message)|
    ensures ParseCommand(Lines("/m ", message)[i]) == Say(Chunks(message)[i])
    ensures |Chunks(message)[i]| <= MaxPayloadLength
  {
    PiecesOfLine(message, i);
    ParseSayLine(Chunks(message)[i]);
  }

  /** The pieces of a non-empty payload without line breaks are non-empty and without line breaks. */
  lemma {:induction false} PiecesOfLine(message: string, i: nat)
    requires message != "" && NoLineBreak(message) && i < |Chunks(message)|
    ensures Chunks(message)[i] != "" && NoLineBreak(Chunks(message)[i])
    decreases |message|
  {
    if |message| > MaxMsgSize && i > 0 {
      PiecesOfLine(message[MaxMsgSize..], i - 1);
    }
  }

  /** An empty chat payload still goes out, as `/m `, which the server drops. */
  lemma EmptyChatDropped(r: Registry, id: SessionId)
    requires Valid(r) && Registered(r, id)
    ensures Lines("/m ", "") == ["/m "]
    ensures Dispatch(r, id, "/m ") == Step(r, Send([]))
  {
    LinesStep("/m ", "");
    assert "/m " + "" == "/m ";
    var line := "/m ";
    assert |line| == 3;
    assert Argument(line, "/nickname ") == None;
    assert Argument(line, "/join ") == None;
    assert Argument(line, "/mute ") == None;
    assert Argument(line, "/unmute ") == None;
    assert Argument(line, "/whois ") == None;
    assert Argument(line, "/kick ") == None;
    assert Argument(line, "/m ") == None;
    assert ParseCommand(line) == Ignored;
  }
}
