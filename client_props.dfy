/**
 * Properties of the client's line classification: `Search` finds the
 * leftmost match, every reply the server builds is read back as what it
 * carries, the conditions under which that round trip holds are needed,
 * and the control lines and plain lines do what the listening loop says.
 */
module ClientProps {
  import opened Protocol
  import opened ClientSpec

  // ---------------------------------------------------------------------
  // Search
  // ---------------------------------------------------------------------

  /** With no match anywhere from `i` on, the search finds nothing. */
  lemma {:induction false} SearchNone(p: Pattern, s: string, i: nat)
    requires i <= |s|
    requires forall j :: i <= j < |s| ==> MatchAt(p, s, j).None?
    ensures Search(p, s, i) == None
    decreases |s| - i
  {
    if i < |s| {
      SearchNone(p, s, i + 1);
    }
  }

  /** The search returns the match at the first position where there is one. */
  lemma {:induction false} SearchLeftmost(p: Pattern, s: string, i: nat, j: nat)
    requires i <= j < |s| && MatchAt(p, s, j).Some?
    requires forall k :: i <= k < j ==> MatchAt(p, s, k).None?
    ensures Search(p, s, i) == MatchAt(p, s, j)
    decreases j - i
  {
    if i < j {
      SearchLeftmost(p, s, i + 1, j);
    }
  }

  /** Whatever the search returns is a match at some position from `i` on. */
  lemma {:induction false} SearchSound(p: Pattern, s: string, i: nat)
    requires i <= |s| && Search(p, s, i).Some?
    ensures exists j :: i <= j < |s| && At(s, j, Keyword(p)) && MatchAt(p, s, j) == Search(p, s, i)
    decreases |s| - i
  {
    if MatchAt(p, s, i).None? {
      SearchSound(p, s, i + 1);
    }
  }

  /** A line without the keyword never matches. */
  lemma KeywordAbsent(p: Pattern, s: string)
    requires !Contains(s, Keyword(p))
    ensures Search(p, s, 0) == None
  {
    if Search(p, s, 0).Some? {
      SearchSound(p, s, 0);
      assert false;
    }
  }

  // ---------------------------------------------------------------------
  // Where a keyword can sit in a line the server builds
  // ---------------------------------------------------------------------

  /** A keyword starting with `/` cannot start inside a command word with a single `/` and a different second letter. */
  lemma KeywordAfterPrefix(pre: string, rest: string, kw: string, i: int)
    requires |pre| >= 2 && pre[0] == '/' && forall j :: 0 < j < |pre| ==> pre[j] != '/'
    requires |kw| >= 2 && kw[0] == '/' && kw[1] != pre[1]
    requires At(pre + rest, i, kw)
    ensures i >= |pre|
  {
    var line := pre + rest;
    assert line[i] == kw[0];
    assert line[i + 1] == kw[1];
  }

  /**
   * In `pre + w + " " + t`, with `pre` a command word whose only `/` is its
   * first character and `w` a whitespace-free word, a keyword ending in its
   * only space either ends exactly at the separator (so `w` ends with the
   * keyword's word) or lies inside `t`.
   */
  lemma KeywordPlacement(pre: string, w: string, t: string, kw: string, i: int)
    requires |pre| >= 2 && pre[0] == '/' && forall j :: 0 < j < |pre| ==> pre[j] != '/'
    requires |kw| >= 2 && kw[0] == '/' && kw[1] != pre[1]
    requires kw[|kw| - 1] == ' ' && forall j :: 0 <= j < |kw| - 1 ==> kw[j] != ' '
    requires NoWhitespace(w)
    requires At(pre + w + " " + t, i, kw)
    ensures EndsWith(w, kw[..|kw| - 1]) || At(t, i - |pre| - |w| - 1, kw)
  {
    var line := pre + w + " " + t;
    var sep := |pre| + |w|;
    assert line[i] == kw[0];
    assert line[i + 1] == kw[1];
    assert i >= |pre|;
    if i <= sep {
      var last := i + |kw| - 1;
      assert line[last] == ' ';
      assert last >= sep;
      assert line[sep] == ' ';
      assert last == sep;
      assert line[i..last] == w[|w| - (|kw| - 1)..];
      assert line[i..last] == kw[..|kw| - 1];
    } else {
      var k := i - sep - 1;
      assert line[i..i + |kw|] == t[k..k + |kw|];
    }
  }

  /** A line with a single `/` at its start holds no keyword that starts with `/` and then a letter other than its second. */
  lemma KeywordAbsentIn(line: string, kw: string)
    requires |line| >= 2 && |kw| >= 2 && line[0] == '/' && kw[0] == '/' && kw[1] != line[1]
    requires forall j :: 0 < j < |line| ==> line[j] != '/'
    ensures !Contains(line, kw)
  {
    if Contains(line, kw) {
      var i :| 0 <= i <= |line| && At(line, i, kw);
      assert line + "" == line;
      KeywordAfterPrefix(line, "", kw, i);
    }
  }
  /** A whitespace-free word never holds a keyword, which ends in a space. */
  lemma NoKeywordInWord(t: string, kw: string, k: int)
    requires NoWhitespace(t) && |kw| >= 1 && kw[|kw| - 1] == ' '
    ensures !At(t, k, kw)
  {
  }

  // ---------------------------------------------------------------------
  // Round trips: each reply of the server is read back as what it carries
  // ---------------------------------------------------------------------

  /** `/youare <nickname>` sets the mirror's nickname to exactly that nickname. */
  lemma YouAreRoundTrip(n: string)
    requires n != "" && NoLineBreak(n)
    ensures Classify("/youare " + n) == YouAre(n)
  {
    var line := "/youare " + n;
    assert At(line, 0, Keyword(YouArePattern));
    var e := LineRunEnd(line, 8);
    assert e == |line|;
    assert line[8..e] == n;
  }


  /** The pieces of `pre + w + " " + t`, position by position. */
  lemma Layout(pre: string, w: string, t: string)
    ensures var line := pre + w + " " + t;
      && |line| == |pre| + |w| + 1 + |t|
      && line[..|pre|] == pre
      && line[|pre|..|pre| + |w|] == w
      && line[|pre| + |w|] == ' '
      && line[|pre| + |w| + 1..] == t
      && (forall k :: |pre| <= k < |pre| + |w| ==> line[k] == w[k - |pre|])
      && (forall k :: |pre| + |w| < k < |line| ==> line[k] == t[k - |pre| - |w| - 1])
  {
  }

  /** The `/joined` pattern splits `/joined <c> <role>` at the separator. */
  lemma JoinedMatch(c: string, role: string)
    requires c != "" && NoWhitespace(c) && role != "" && NoWhitespace(role)
    ensures MatchAt(JoinedPattern, "/joined " + c + " " + role, 0) == Some(Groups(c, role))
  {
    var line := "/joined " + c + " " + role;
    Layout("/joined ", c, role);
    var sep := 8 + |c|;
    assert At(line, 0, Keyword(JoinedPattern));
    var e := LineRunEnd(line, 8);
    assert e == |line|;
    var js := LastSpace(line, 9, e - 1);
    assert js == Some(sep);
    assert line[8..sep] == c;
    assert line[sep + 1..e] == role;
  }

  /** No `/youare` search succeeds on `/joined <c> <role>` unless `c` ends in `/youare`. */
  lemma JoinedIsNotYouAre(c: string, role: string)
    requires c != "" && NoWhitespace(c) && !EndsWith(c, "/youare")
    requires role != "" && NoWhitespace(role)
    ensures Search(YouArePattern, "/joined " + c + " " + role, 0) == None
  {
    var line := "/joined " + c + " " + role;
    assert "/youare "[..7] == "/youare";
    if Contains(line, "/youare ") {
      var j :| 0 <= j <= |line| && At(line, j, "/youare ");
      KeywordPlacement("/joined ", c, role, "/youare ", j);
      NoKeywordInWord(role, "/youare ", j - 8 - |c| - 1);
      assert false;
    }
    KeywordAbsent(YouArePattern, line);
  }

  /**
   * `/joined <channel> <role>` is read back as that channel and role, as long
   * as the channel name is a whitespace-free word not ending in `/youare`
   * (which would make the line look like a `/youare` reply).
   */
  lemma JoinedRoundTrip(c: string, role: string)
    requires c != "" && NoWhitespace(c) && !EndsWith(c, "/youare")
    requires role != "" && NoWhitespace(role)
    ensures Classify("/joined " + c + " " + role) == Joined(c, role)
  {
    JoinedIsNotYouAre(c, role);
    JoinedMatch(c, role);
  }

  /** The `/msg` pattern splits `/msg <from> <text>` after the sender's word. */
  lemma ChatMatch(from: string, text: string)
    requires from != "" && NoWhitespace(from) && text != "" && NoLineBreak(text)
    ensures MatchAt(MsgPattern, "/msg " + from + " " + text, 0) == Some(Groups(from, text))
  {
    var line := "/msg " + from + " " + text;
    Layout("/msg ", from, text);
    var sep := 5 + |from|;
    assert At(line, 0, Keyword(MsgPattern));
    var w := WordEnd(line, 5);
    assert w == sep;
    var e := LineRunEnd(line, w + 1);
    assert e == |line|;
    assert line[5..w] == from;
    assert line[w + 1..e] == text;
  }

  /** Neither `/youare` nor `/joined` is found in a chat line that does not spell them out. */
  lemma ChatIsNoReply(from: string, text: string, p: Pattern)
    requires p == YouArePattern || p == JoinedPattern
    requires from != "" && NoWhitespace(from) && !EndsWith(from, Keyword(p)[..|Keyword(p)| - 1])
    requires !Contains(text, Keyword(p))
    ensures Search(p, "/msg " + from + " " + text, 0) == None
  {
    var line := "/msg " + from + " " + text;
    var kw := Keyword(p);
    forall j | 0 <= j < |line|
      ensures MatchAt(p, line, j).None?
    {
      if At(line, j, kw) {
        KeywordPlacement("/msg ", from, text, kw, j);
        assert false;
      }
    }
    SearchNone(p, line, 0);
  }

  /**
   * `/msg <from> <text>` is shown as `<from>: <text>` when the sender is a
   * whitespace-free word and neither it nor the text could pass for a
   * `/youare` or `/joined` reply.
   */
  lemma ChatRoundTrip(from: string, text: string)
    requires from != "" && NoWhitespace(from) && !EndsWith(from, "/youare") && !EndsWith(from, "/joined")
    requires text != "" && NoLineBreak(text) && !Contains(text, "/youare ") && !Contains(text, "/joined ")
    ensures Classify("/msg " + from + " " + text) == Chat(from, text)
  {
    var line := "/msg " + from + " " + text;
    assert Keyword(YouArePattern)[..7] == "/youare";
    assert Keyword(JoinedPattern)[..7] == "/joined";
    ChatIsNoReply(from, text, YouArePattern);
    ChatIsNoReply(from, text, JoinedPattern);
    assert line[1] == 'm' && line[2] == 's';
    ChatMatch(from, text);
  }

  // ---------------------------------------------------------------------
  // The conditions of the round trips are needed
  // ---------------------------------------------------------------------

  /** A relayed chat text that reads like a `/youare` reply renames the receiving client. */
  lemma ChatTextCanRename()
    ensures Classify("/msg eve /youare root") == YouAre("root")
  {
    var line := "/msg eve /youare root";
    assert line == "/msg eve " + "/youare root";
    NoYouAreBefore(line, "/msg eve ", "/youare root");
    YouAreAt9(line, "root");
    SearchLeftmost(YouArePattern, line, 0, 9);
  }

  /**
   * A valid channel name ending in `/youare` turns the join reply into a
   * rename: whatever role the joiner is granted, its client takes the role
   * word for its nickname.
   */
  lemma ChannelNameCanRename(role: string)
    requires role == "admin" || role == "user"
    ensures Classify("/joined #/youare " + role) == YouAre(role)
  {
    var line := "/joined #/youare " + role;
    assert line == "/joined #" + ("/youare " + role);
    assert role != "" && NoLineBreak(role);
    NoYouAreBefore(line, "/joined #", "/youare " + role);
    YouAreAt9(line, role);
    SearchLeftmost(YouArePattern, line, 0, 9);
  }

  /** Behind a nine-character command head with a single `/`, at its start, no `/youare` match starts inside the head. */
  lemma NoYouAreBefore(line: string, head: string, t: string)
    requires line == head + t && |head| == 9
    requires head[0] == '/' && head[1] != 'y' && forall j :: 0 < j < |head| ==> head[j] != '/'
    ensures forall k :: 0 <= k < 9 ==> MatchAt(YouArePattern, line, k).None?
  {
    forall k | 0 <= k < 9
      ensures MatchAt(YouArePattern, line, k).None?
    {
      if At(line, k, "/youare ") {
        KeywordAfterPrefix(head, t, "/youare ", k);
      }
    }
  }

  /** A `/youare` keyword at position 9 followed by a plain word is a match for that word. */
  lemma YouAreAt9(line: string, n: string)
    requires |line| == 17 + |n| && line[9..17] == "/youare " && line[17..] == n
    requires n != "" && NoLineBreak(n)
    ensures MatchAt(YouArePattern, line, 9) == Some(Groups(n, ""))
  {
    assert Keyword(YouArePattern) == "/youare " && At(line, 9, "/youare ");
    assert forall j :: 17 <= j < |line| ==> line[j] == n[j - 17];
    assert forall j :: 17 <= j < |line| ==> !IsLineBreak(line[j]);
    var e := LineRunEnd(line, 17);
    assert e == |line|;
    assert line[17..e] == n;
  }

  /** A sender nickname holding a space is split: its tail is shown as part of the text. */
  lemma SpacedNicknameSplits()
    ensures Classify("/msg a b hi") == Chat("a", "b hi")
  {
    var line := "/msg a b hi";
    NoReplyIn(line);
    SpacedNicknameMatch();
    assert Search(MsgPattern, line, 0) == Some(Groups("a", "b hi"));
  }

  lemma SpacedNicknameMatch()
    ensures MatchAt(MsgPattern, "/msg a b hi", 0) == Some(Groups("a", "b hi"))
  {
    var line := "/msg a b hi";
    assert Keyword(MsgPattern) == "/msg " && At(line, 0, "/msg ");
    assert WordEnd(line, 5) == 6 && line[6] == ' ';
    assert LineRunEnd(line, 7) == 11;
    assert line[5..6] == "a" && line[7..11] == "b hi";
  }
  // ---------------------------------------------------------------------
  // Control lines, plain lines, the empty read
  // ---------------------------------------------------------------------

  /** A line holding no `/` but its first character, and not starting `/y` or `/j`, matches neither reply pattern. */
  lemma NoReplyIn(line: string)
    requires |line| >= 2 && line[0] == '/' && line[1] != 'y' && line[1] != 'j'
    requires forall j :: 0 < j < |line| ==> line[j] != '/'
    ensures Search(YouArePattern, line, 0) == None && Search(JoinedPattern, line, 0) == None
  {
    KeywordAbsentIn(line, "/youare ");
    KeywordAbsentIn(line, "/joined ");
    KeywordAbsent(YouArePattern, line);
    KeywordAbsent(JoinedPattern, line);
  }
  /**
   * `/kicked` leaves the channel and drops the role but keeps the mute flag;
   * `/muted` and `/unmuted` set and clear the mute flag; none of them shows
   * anything.
   */
  lemma ControlLines(m: Mirror)
    ensures OnLine(m, "/kicked") == (Mirror(m.nickname, "", false, m.isMuted), Ignore)
    ensures OnLine(m, "/muted") == (Mirror(m.nickname, m.channel, m.isAdmin, true), Ignore)
    ensures OnLine(m, "/unmuted") == (Mirror(m.nickname, m.channel, m.isAdmin, false), Ignore)
  {
    KickedClassified();
    MutedClassified();
    UnmutedClassified();
  }

  lemma KickedClassified()
    ensures Classify("/kicked") == Kicked
  {
    NoReplyIn("/kicked");
  }

  lemma MutedClassified()
    ensures Classify("/muted") == Muted
  {
    NoReplyIn("/muted");
  }

  lemma UnmutedClassified()
    ensures Classify("/unmuted") == Unmuted
  {
    NoReplyIn("/unmuted");
  }

  /** A line that does not start with `/` is shown as it is and changes nothing. */
  lemma PlainLineShown(m: Mirror, line: string)
    requires line != "" && line[0] != '/'
    ensures OnLine(m, line) == (m, Display(line))
  {
  }

  /** The empty read stops the loop and changes nothing. */
  lemma EmptyReadStops(m: Mirror)
    ensures OnLine(m, "") == (m, StopListening)
  {
  }

  /** Only chat lines and plain lines show something, and only the empty read stops the loop. */
  lemma EventCases(m: Mirror, line: string)
    ensures OnLine(m, line).1 == StopListening <==> line == ""
    ensures OnLine(m, line).1.Display? <==> Classify(line).Chat? || Classify(line).Plain?
    ensures (!Classify(line).YouAre? && !Classify(line).Joined? && !Classify(line).Kicked?
             && !Classify(line).Muted? && !Classify(line).Unmuted?) ==> OnLine(m, line).0 == m
  {
  }

  // ---------------------------------------------------------------------
  // The listening loop over a run of reads
  // ---------------------------------------------------------------------

  /** A run of reads can be replayed in two parts: the second starts where the first left off, unless the first stopped the loop. */
  lemma {:induction false} ReplayAppend(m: Mirror, a: seq<ReadResult>, b: seq<ReadResult>)
    ensures var ta := Replay(m, a);
      Replay(m, a + b) == if ta.stopped then ta else After(ta.shown, Replay(ta.me, b))
    decreases |a|
  {
    if a == [] {
      assert a + b == b;
    } else {
      assert (a + b)[1..] == a[1..] + b;
      if a[0].Line? {
        var step := OnLine(m, a[0].text);
        if step.1 != StopListening {
          ReplayAppend(step.0, a[1..], b);
        }
      } else {
        ReplayAppend(m, a[1..], b);
      }
    }
  }

  /** Nothing read after the server closed the connection is looked at. */
  lemma NothingAfterClose(m: Mirror, a: seq<ReadResult>, b: seq<ReadResult>)
    requires forall k :: 0 <= k < |a| ==> a[k] != Line("")
    ensures Replay(m, a + [Line("")] + b) == Replay(m, a + [Line("")])
    ensures Replay(m, a + [Line("")]).stopped
  {
    NeverStops(m, a);
    ReplayAppend(m, a, [Line("")] + b);
    ReplayAppend(m, a, [Line("")]);
    assert a + [Line("")] + b == a + ([Line("")] + b);
  }

  /** Only the empty read stops the loop. */
  lemma {:induction false} NeverStops(m: Mirror, a: seq<ReadResult>)
    requires forall k :: 0 <= k < |a| ==> a[k] != Line("")
    ensures !Replay(m, a).stopped
    decreases |a|
  {
    if a != [] {
      if a[0].Line? {
        EventCases(m, a[0].text);
        NeverStops(OnLine(m, a[0].text).0, a[1..]);
      } else {
        NeverStops(m, a[1..]);
      }
    }
  }

  /** Reads that time out change nothing. */
  lemma {:induction false} TimeoutsIgnored(m: Mirror, a: seq<ReadResult>)
    requires forall k :: 0 <= k < |a| ==> a[k] == NoData
    ensures Replay(m, a) == Transcript(m, [], false)
    decreases |a|
  {
    if a != [] {
      TimeoutsIgnored(m, a[1..]);
    }
  }
}
