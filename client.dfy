/**
 * The chat client: its connection flags, the mirror of its own session that
 * the listening loop keeps up to date, the lines it writes to the server
 * and the lines it adds to the chat window.
 */
module ClientCore {
  import opened Protocol
  import opened ClientSpec

  /** The loop's first read, unfolded. */
  lemma ReplayFirst(m: Mirror, feed: seq<ReadResult>)
    requires feed != []
    ensures feed[0].NoData? ==> Replay(m, feed) == Replay(m, feed[1..])
    ensures feed[0].Line? ==>
      var step := OnLine(m, feed[0].text);
      Replay(m, feed) == if step.1 == StopListening then Transcript(step.0, [], true)
                         else After(Shown(step.1), Replay(step.0, feed[1..]))
  {
  }

  /** One turn of messageServer: the first `/m` line goes out, the rest of the payload is still owed. */
  lemma SendFirstLine(sent: seq<string>, m: string)
    ensures |m| > MaxMsgSize ==>
      sent + Lines("/m ", m) == (sent + ["/m " + m[..MaxMsgSize]]) + Lines("/m ", m[MaxMsgSize..])
    ensures |m| <= MaxMsgSize ==> sent + Lines("/m ", m) == sent + ["/m " + m]
  {
    LinesStep("/m ", m);
  }

  /** Lines shown in two batches before a transcript are the two batches, in order. */
  lemma AfterAfter(a: seq<string>, b: seq<string>, t: Transcript)
    ensures After(a, After(b, t)) == After(a + b, t)
  {
    assert a + (b + t.shown) == (a + b) + t.shown;
  }

  class Client {
    // the session record the client keeps about itself
    var nickname: string
    var channel: string
    var isAdmin: bool
    var isMuted: bool

    var isConnected: bool
    var shouldBeListening: bool
    /** The current socket is open (a fresh socket is, `stop` closes it). */
    var socketOpen: bool

    /** Lines written to the server, in order, over every socket the client has had. */
    var sent: seq<string>
    /** Lines added to the chat window, in order. */
    var shown: seq<string>

    ghost function Me(): Mirror
      reads this
    {
      Mirror(nickname, channel, isAdmin, isMuted)
    }

    /** Connected, listening, socket open. */
    ghost function Status(): (bool, bool, bool)
      reads this
    {
      (isConnected, shouldBeListening, socketOpen)
    }

    /** A client that has not connected yet: a fresh socket and a fresh session record. */
    constructor()
      ensures Me() == Fresh && Status() == (false, false, true)
      ensures sent == [] && shown == []
    {
      nickname, channel, isAdmin, isMuted := "", "", false, false;
      isConnected, shouldBeListening, socketOpen := false, false, true;
      sent, shown := [], [];
    }

    /** Not connected, with a fresh socket and a fresh session record. */
    method Init()
      modifies this
      ensures Me() == Fresh && !isConnected && socketOpen
      ensures shouldBeListening == old(shouldBeListening) && sent == old(sent) && shown == old(shown)
    {
      isConnected := false;
      socketOpen := true;
      nickname, channel, isAdmin, isMuted := "", "", false, false;
    }

    method SendMessage(line: string)
      modifies this
      ensures sent == old(sent) + [line]
      ensures Me() == old(Me()) && Status() == old(Status()) && shown == old(shown)
    {
      sent := sent + [line];
    }

    /**
     * Connects; `status` is what the connection attempt returned (0 on
     * success). A failed attempt leaves the client stopped with a fresh
     * socket and reports the status; a successful one asks the server who
     * the client is, then marks it connected and starts listening.
     */
    method Start(status: int) returns (result: int)
      modifies this
      ensures result == status
      ensures status != 0 ==> Me() == Fresh && Status() == (false, false, true) && sent == old(sent)
      ensures status == 0 ==> Me() == old(Me()) && isConnected && shouldBeListening && socketOpen == old(socketOpen)
      ensures status == 0 ==> sent == old(sent) + ["/whoami"]
      ensures shown == old(shown)
    {
      if status != 0 {
        var _ := Stop();
        Init();
        return status;
      }
      SendMessage("/whoami");
      isConnected := true;
      shouldBeListening := true;
      return 0;
    }

    /** Stops listening, marks the client disconnected and closes the socket. */
    method Stop() returns (result: int)
      modifies this
      ensures result == 0
      ensures Status() == (false, false, false)
      ensures Me() == old(Me()) && sent == old(sent) && shown == old(shown)
    {
      shouldBeListening := false;
      isConnected := false;
      socketOpen := false;
      return 0;
    }

    /** Sends a chat payload as `/m ` lines, one per piece of at most MaxMsgSize characters. */
    method MessageServer(message: string)
      modifies this
      ensures sent == old(sent) + Lines("/m ", message)
      ensures Me() == old(Me()) && Status() == old(Status()) && shown == old(shown)
    {
      var rest := message;
      while |rest| > MaxMsgSize
        invariant sent + Lines("/m ", rest) == old(sent) + Lines("/m ", message)
        invariant Me() == old(Me()) && Status() == old(Status()) && shown == old(shown)
        decreases |rest|
      {
        var piece := rest[..MaxMsgSize];
        SendFirstLine(sent, rest);
        rest := rest[MaxMsgSize..];
        SendMessage("/m " + piece);
      }
      SendFirstLine(sent, rest);
      SendMessage("/m " + rest);
    }

    /** The client believes it is in a channel. */
    method HasChannel() returns (has: bool)
      ensures has <==> Me().channel != ""
    {
      has := channel != "";
    }

    /** The client believes it is muted. */
    method IsMuted() returns (muted: bool)
      ensures muted == Me().isMuted
    {
      muted := isMuted;
    }

    /**
     * One turn of the listening loop. Nothing happens unless the client is
     * connected and the read produced a line; a line is then handled as
     * `OnLine` says: the session record changes, a chat line is shown, or
     * the empty read stops the loop.
     */
    method ListenStep(read: ReadResult)
      modifies this
      ensures sent == old(sent) && isConnected == old(isConnected) && socketOpen == old(socketOpen)
      ensures !old(isConnected) || read.NoData? ==>
        Me() == old(Me()) && shown == old(shown) && shouldBeListening == old(shouldBeListening)
      ensures old(isConnected) && read.Line? ==>
        var step := OnLine(old(Me()), read.text);
        && Me() == step.0
        && shown == old(shown) + Shown(step.1)
        && shouldBeListening == (step.1 != StopListening && old(shouldBeListening))
    {
      if !isConnected || read.NoData? {
        return;
      }
      var message := read.text;
      if message == "" {
        shouldBeListening := false;
      } else if message[0] == '/' {
        var you := Search(YouArePattern, message, 0);
        if you.Some? {
          nickname := you.value.first;
          return;
        }
        var joined := Search(JoinedPattern, message, 0);
        if joined.Some? {
          isAdmin := joined.value.second == "admin";
          channel := joined.value.first;
          return;
        }
        if message == "/kicked" {
          isAdmin := false;
          channel := "";
          return;
        }
        if message == "/muted" {
          isMuted := true;
          return;
        }
        if message == "/unmuted" {
          isMuted := false;
          return;
        }
        var chat := Search(MsgPattern, message, 0);
        if chat.Some? {
          shown := shown + [chat.value.first + ": " + chat.value.second];
          return;
        }
      } else {
        shown := shown + [message];
      }
    }

    /**
     * The listening loop of a connected client over a run of reads: it ends
     * when the reads run out or the server closes the connection, and what
     * it did is what `Replay` says.
     */
    method Listen(feed: seq<ReadResult>)
      requires isConnected && shouldBeListening
      modifies this
      ensures var t := Replay(old(Me()), feed);
        Me() == t.me && shown == old(shown) + t.shown && shouldBeListening == !t.stopped
      ensures sent == old(sent) && isConnected && socketOpen == old(socketOpen)
    {
      var i := 0;
      ghost var out: seq<string> := [];
      while i < |feed| && shouldBeListening
        invariant 0 <= i <= |feed| && isConnected
        invariant sent == old(sent) && socketOpen == old(socketOpen)
        invariant shown == old(shown) + out
        invariant shouldBeListening ==> Replay(old(Me()), feed) == After(out, Replay(Me(), feed[i..]))
        invariant !shouldBeListening ==> Replay(old(Me()), feed) == Transcript(Me(), out, true)
        decreases |feed| - i
      {
        ghost var before := Me();
        ghost var rest := feed[i..];
        assert rest[1..] == feed[i + 1..];
        ReplayFirst(before, rest);
        ListenStep(feed[i]);
        if feed[i].Line? {
          ghost var step := OnLine(before, feed[i].text);
          if step.1 == StopListening {
            assert Shown(step.1) == [] && out + [] == out;
          } else {
            AfterAfter(out, Shown(step.1), Replay(step.0, feed[i + 1..]));
          }
          out := out + Shown(step.1);
        }
        i := i + 1;
      }
    }
  }
}
