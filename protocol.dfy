/**
 * Definitions shared by the chat server and the chat client: the wire-line
 * limit, the character classes the original regular expressions use, the
 * chunking scheme for long chat payloads, and the `Client_<n>` nicknames
 * the server hands out on admission.
 */
module Protocol {

  datatype Option<T> = None | Some(value: T)

  /** Largest chat payload carried by one wire line (MAX_MSG_SIZE). */
  const MaxMsgSize: nat := 4096

  // ---------------------------------------------------------------------
  // Character classes of the ECMAScript regular expressions in the source
  // ---------------------------------------------------------------------

  /** The characters that `.` refuses to match. */
  predicate IsLineBreak(c: char) {
    c == '\n' || c == '\r'
  }

  /** The characters `\s` matches: space, tab, line feed, vertical tab, form feed, carriage return. */
  predicate IsWhitespace(c: char) {
    c == ' ' || c == '\t' || c == '\n' || c == '\U{B}' || c == '\U{C}' || c == '\r'
  }

  /** Every character of `s` is matched by `.`. */
  predicate NoLineBreak(s: string) {
    forall i :: 0 <= i < |s| ==> !IsLineBreak(s[i])
  }

  /** Every character of `s` is matched by `\S`. */
  predicate NoWhitespace(s: string) {
    forall i :: 0 <= i < |s| ==> !IsWhitespace(s[i])
  }

  /** `p` occurs in `s` starting at index `i`. */
  predicate At(s: string, i: int, p: string) {
    0 <= i && i + |p| <= |s| && s[i..i + |p|] == p
  }

  /** `p` occurs somewhere in `s`. */
  predicate Contains(s: string, p: string) {
    exists i :: 0 <= i <= |s| && At(s, i, p)
  }

  predicate EndsWith(s: string, p: string) {
    |p| <= |s| && s[|s| - |p|..] == p
  }

  // ---------------------------------------------------------------------
  // Chunking of long payloads (messageClient on the server, messageServer
  // on the client): full pieces of MaxMsgSize characters, then the rest.
  // ---------------------------------------------------------------------

  function Concat(pieces: seq<string>): string {
    if pieces == [] then "" else pieces[0] + Concat(pieces[1..])
  }

  /**
   * The pieces a payload is sent in. There is always at least one piece (an
   * empty payload still produces one line); every piece fits a wire line,
   * every piece but the last is full, and the pieces put back together give
   * the payload.
   */
  function Chunks(m: string): (pieces: seq<string>)
    ensures |pieces| >= 1
    ensures forall k :: 0 <= k < |pieces| ==> |pieces[k]| <= MaxMsgSize
    ensures forall k :: 0 <= k < |pieces| - 1 ==> |pieces[k]| == MaxMsgSize
    ensures m != [] ==> pieces[|pieces| - 1] != []
    ensures Concat(pieces) == m
    decreases |m|
  {
    if |m| <= MaxMsgSize then
      [m]
    else
      var rest := Chunks(m[MaxMsgSize..]);
      assert Concat([m[..MaxMsgSize]] + rest) == m[..MaxMsgSize] + Concat(rest);
      [m[..MaxMsgSize]] + rest
  }

  /** One line for a payload that fits, otherwise the ceiling of its length over MAX_MSG_SIZE. */
  lemma {:induction false} ChunkCount(m: string)
    ensures |Chunks(m)| == if |m| <= MaxMsgSize then 1 else (|m| + MaxMsgSize - 1) / MaxMsgSize
    decreases |m|
  {
    if |m| > MaxMsgSize {
      ChunkCount(m[MaxMsgSize..]);
    }
  }

  /** The wire lines carrying `m`: each piece behind the command prefix. */
  function Lines(prefix: string, m: string): (lines: seq<string>)
  {
    var pieces := Chunks(m);
    seq(|pieces|, k requires 0 <= k < |pieces| => prefix + pieces[k])
  }

  /** One step of the chunking loop: a long payload sends one full piece and continues with the rest. */
  lemma LinesStep(prefix: string, m: string)
    ensures |m| <= MaxMsgSize ==> Lines(prefix, m) == [prefix + m]
    ensures |m| > MaxMsgSize ==> Lines(prefix, m) == [prefix + m[..MaxMsgSize]] + Lines(prefix, m[MaxMsgSize..])
  {
    if |m| > MaxMsgSize {
      var rest := Lines(prefix, m[MaxMsgSize..]);
      var all := Lines(prefix, m);
      assert |all| == 1 + |rest|;
      forall k | 0 <= k < |all|
        ensures all[k] == ([prefix + m[..MaxMsgSize]] + rest)[k]
      {
      }
    }
  }

  /** A payload of three full pieces and ten characters more goes out on four lines. */
  lemma FourLinesForThreePiecesAndTen(m: string)
    requires |m| == 3 * MaxMsgSize + 10
    ensures |Lines("/m ", m)| == 4
  {
    ChunkCount(m);
  }

  // ---------------------------------------------------------------------
  // Nicknames allocated on admission: "Client_" followed by std::to_string
  // of the counter.
  // ---------------------------------------------------------------------

  function DigitChar(d: nat): char
    requires d < 10
  {
    ('0' as int + d) as char
  }

  /** Decimal rendering of a natural number, most significant digit first, no leading zeros. */
  function NatToString(n: nat): (s: string)
    ensures |s| >= 1
    ensures n >= 10 ==> |s| >= 2
    decreases n
  {
    if n < 10 then [DigitChar(n)] else NatToString(n / 10) + [DigitChar(n % 10)]
  }

  /** Different numbers render differently. */
  lemma {:induction false} NatToStringInjective(a: nat, b: nat)
    requires NatToString(a) == NatToString(b)
    ensures a == b
    decreases a
  {
    var s := NatToString(a);
    if a < 10 && b < 10 {
      assert s[0] == DigitChar(a) && s[0] == DigitChar(b);
    } else if a >= 10 && b >= 10 {
      assert s[|s| - 1] == DigitChar(a % 10) && s[|s| - 1] == DigitChar(b % 10);
      assert NatToString(a / 10) == s[..|s| - 1] == NatToString(b / 10);
      NatToStringInjective(a / 10, b / 10);
    }
  }

  const NicknameStem: string := "Client_"

  function ClientName(k: nat): string {
    NicknameStem + NatToString(k)
  }

  /** Distinct counter values give distinct nicknames. */
  lemma ClientNameInjective(a: nat, b: nat)
    ensures ClientName(a) == ClientName(b) <==> a == b
  {
    if ClientName(a) == ClientName(b) {
      assert ClientName(a)[|NicknameStem|..] == NatToString(a);
      assert ClientName(b)[|NicknameStem|..] == NatToString(b);
      NatToStringInjective(a, b);
    }
  }
}
