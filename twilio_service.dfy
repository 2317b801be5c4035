/**
 * The outbound side of the WhatsApp channel: long replies are cut into chunks the carrier
 * accepts, preferring to cut at a space or a late newline, and the chunks of all replies are
 * sent in order until one send fails.
 */
module TwilioService {
  import opened Wrappers
  import opened Text
  import Batching

  /** The chunk length `send_messages` asks for. */
  const DefaultMaxLength: nat := 1500

  /**
   * Where one round of `_split_message` cuts a message longer than the limit: at the last
   * newline before the limit when it lies beyond half the limit, else at the last space
   * before the limit, else exactly at the limit.
   */
  function SplitIndex(message: string, maxLength: nat): (idx: nat)
    requires 1 <= maxLength < |message|
    ensures idx <= maxLength
    ensures idx < maxLength ==> message[idx] == ' ' || message[idx] == '\n'
    ensures idx < maxLength && message[idx] == '\n' ==>
              2 * idx > maxLength && forall k :: idx < k < maxLength ==> message[k] != '\n'
    ensures idx < maxLength && message[idx] == ' ' ==>
              && (forall k :: idx < k < maxLength ==> message[k] != ' ')
              && (forall k :: 0 <= k < maxLength && 2 * k > maxLength ==> message[k] != '\n')
    ensures idx == maxLength ==>
              forall k :: 0 <= k < maxLength ==>
                message[k] != ' ' && (message[k] == '\n' ==> 2 * k <= maxLength)
  {
    var space := FindLastBefore(message, ' ', maxLength);
    var newline := FindLastBefore(message, '\n', maxLength);
    if 2 * newline > maxLength then newline
    else if space == -1 then maxLength
    else space
  }

  /** A message without a space or newline before the limit is cut exactly at the limit. */
  lemma HardSplitWithoutBreak(message: string, maxLength: nat)
    requires 1 <= maxLength < |message|
    requires forall k :: 0 <= k < maxLength ==> message[k] != ' ' && message[k] != '\n'
    ensures SplitIndex(message, maxLength) == maxLength
  {
  }

  /** What is left after a cut is strictly shorter than the message: the loop terminates. */
  lemma RemainderShrinks(message: string, maxLength: nat)
    requires 1 <= maxLength < |message|
    ensures |LStrip(message[SplitIndex(message, maxLength)..])| < |message|
  {
    var idx := SplitIndex(message, maxLength);
    var tail := message[idx..];
    if idx == 0 {
      assert IsSpace(tail[0]);
      assert LeadingSpaces(tail) >= 1;
    }
  }

  /** The chunks the loop of `_split_message` produces from `message` onwards. */
  function SplitRest(message: string, maxLength: nat): (chunks: seq<string>)
    requires maxLength >= 1
    ensures forall k :: 0 <= k < |chunks| ==> |chunks[k]| <= maxLength
    ensures message != [] <==> chunks != []
    decreases |message|
  {
    if |message| <= maxLength then (if message == [] then [] else [message])
    else
      var idx := SplitIndex(message, maxLength);
      RemainderShrinks(message, maxLength);
      [message[..idx]] + SplitRest(LStrip(message[idx..]), maxLength)
  }

  /**
   * `_split_message`: a message within the limit is the single chunk; a longer one is cut
   * round by round, the whitespace after each cut dropped, until the rest fits; an empty
   * rest is not sent. Every chunk is within the limit.
   */
  function Split(message: string, maxLength: nat): (chunks: seq<string>)
    requires maxLength >= 1
    ensures |message| <= maxLength ==> chunks == [message]
    ensures |chunks| >= 1
    ensures forall k :: 0 <= k < |chunks| ==> |chunks[k]| <= maxLength
  {
    if |message| <= maxLength then [message] else SplitRest(message, maxLength)
  }

  /** One round's choice of the cut, as written: two `rfind` calls and two overrides. */
  method CutIndex(message: string, maxLength: nat) returns (splitIdx: nat)
    requires 1 <= maxLength < |message|
    ensures splitIdx == SplitIndex(message, maxLength)
  {
    var idx := FindLastBefore(message, ' ', maxLength);
    var newlineIdx := FindLastBefore(message, '\n', maxLength);
    if 2 * newlineIdx > maxLength {
      idx := newlineIdx;
    }
    if idx == -1 {
      idx := maxLength;
    }
    splitIdx := idx;
  }

  /** `_split_message` as written: the `while` loop cutting and left-stripping the rest. */
  method SplitMessage(message: string, maxLength: nat) returns (chunks: seq<string>)
    requires maxLength >= 1
    ensures chunks == Split(message, maxLength)
  {
    if |message| <= maxLength {
      return [message];
    }
    chunks := [];
    var rest := message;
    while |rest| > maxLength
      invariant chunks + SplitRest(rest, maxLength) == SplitRest(message, maxLength)
      decreases |rest|
    {
      var splitIdx := CutIndex(rest, maxLength);
      RemainderShrinks(rest, maxLength);
      var piece := rest[..splitIdx];
      var next := LStrip(rest[splitIdx..]);
      assert SplitRest(rest, maxLength) == [piece] + SplitRest(next, maxLength);
      assert (chunks + [piece]) + SplitRest(next, maxLength) == chunks + ([piece] + SplitRest(next, maxLength));
      chunks := chunks + [piece];
      rest := next;
    }
    if rest != [] {
      chunks := chunks + [rest];
    }
    assert SplitRest(rest, maxLength) == if rest == [] then [] else [rest];
  }

  /** All chunks one after the other. */
  function Concat(chunks: seq<string>): string {
    if chunks == [] then [] else chunks[0] + Concat(chunks[1..])
  }

  lemma {:induction false} ConcatAppend(a: seq<string>, b: seq<string>)
    ensures Concat(a + b) == Concat(a) + Concat(b)
    decreases |a|
  {
    if a == [] {
      assert a + b == b;
    } else {
      assert (a + b)[1..] == a[1..] + b;
      ConcatAppend(a[1..], b);
    }
  }

  /** The characters of `s` that are not whitespace, in order. */
  function NonSpace(s: string): (r: string)
    ensures |r| <= |s|
  {
    if s == [] then []
    else (if IsSpace(s[0]) then [] else [s[0]]) + NonSpace(s[1..])
  }

  lemma {:induction false} NonSpaceAppend(a: string, b: string)
    ensures NonSpace(a + b) == NonSpace(a) + NonSpace(b)
    decreases |a|
  {
    if a == [] {
      assert a + b == b;
    } else {
      var head := if IsSpace(a[0]) then [] else [a[0]];
      assert (a + b)[0] == a[0];
      assert (a + b)[1..] == a[1..] + b;
      NonSpaceAppend(a[1..], b);
      calc {
        NonSpace(a + b);
        head + NonSpace(a[1..] + b);
        head + (NonSpace(a[1..]) + NonSpace(b));
        (head + NonSpace(a[1..])) + NonSpace(b);
      }
    }
  }

  lemma {:induction false} NonSpaceOfSpace(s: string)
    requires AllSpace(s)
    ensures NonSpace(s) == []
    decreases |s|
  {
    if s != [] {
      NonSpaceOfSpace(s[1..]);
    }
  }

  /** The non-whitespace of a string is that of its two parts at any cut. */
  lemma NonSpaceAt(s: string, i: nat)
    requires i <= |s|
    ensures NonSpace(s) == NonSpace(s[..i]) + NonSpace(s[i..])
  {
    assert s == s[..i] + s[i..];
    NonSpaceAppend(s[..i], s[i..]);
  }

  /** Left-stripping loses only whitespace. */
  lemma NonSpaceOfLStrip(s: string)
    ensures NonSpace(LStrip(s)) == NonSpace(s)
  {
    var n := |s| - |LStrip(s)|;
    LStripSlice(s);
    NonSpaceAt(s, n);
    NonSpaceOfSpace(s[..n]);
  }

  /** Only whitespace at the cuts is lost: the chunks keep every other character, in order. */
  lemma {:induction false} SplitRestKeepsText(message: string, maxLength: nat)
    requires maxLength >= 1
    ensures NonSpace(Concat(SplitRest(message, maxLength))) == NonSpace(message)
    decreases |message|
  {
    if |message| <= maxLength {
      if message != [] {
        assert [message][1..] == [];
        assert Concat([message]) == message;
      }
    } else {
      var idx := SplitIndex(message, maxLength);
      var rest := LStrip(message[idx..]);
      RemainderShrinks(message, maxLength);
      SplitRestKeepsText(rest, maxLength);
      assert SplitRest(message, maxLength) == [message[..idx]] + SplitRest(rest, maxLength);
      assert Concat(SplitRest(message, maxLength)) == message[..idx] + Concat(SplitRest(rest, maxLength));
      NonSpaceAppend(message[..idx], Concat(SplitRest(rest, maxLength)));
      NonSpaceOfLStrip(message[idx..]);
      NonSpaceAt(message, idx);
    }
  }

  lemma SplitKeepsText(message: string, maxLength: nat)
    requires maxLength >= 1
    ensures NonSpace(Concat(Split(message, maxLength))) == NonSpace(message)
  {
    if |message| <= maxLength {
      assert [message][1..] == [];
      assert Concat([message]) == message;
    } else {
      SplitRestKeepsText(message, maxLength);
    }
  }

  /** Cutting a text without any whitespace every `maxLength` characters. */
  function HardChunks(message: string, maxLength: nat): seq<string>
    requires maxLength >= 1
    decreases |message|
  {
    if |message| <= maxLength then (if message == [] then [] else [message])
    else [message[..maxLength]] + HardChunks(message[maxLength..], maxLength)
  }

  /** A text without whitespace is cut hard, into pieces of exactly the limit and a rest. */
  lemma {:induction false} SplitWithoutSpaces(message: string, maxLength: nat)
    requires maxLength >= 1
    requires forall k :: 0 <= k < |message| ==> !IsSpace(message[k])
    ensures SplitRest(message, maxLength) == HardChunks(message, maxLength)
    decreases |message|
  {
    if |message| > maxLength {
      HardSplitWithoutBreak(message, maxLength);
      var tail := message[maxLength..];
      assert LeadingSpaces(tail) == 0;
      assert LStrip(tail) == tail;
      SplitWithoutSpaces(tail, maxLength);
    }
  }

  /** 250 letters at a limit of 100 give chunks of 100, 100 and 50 letters. */
  lemma HardSplitExample()
    ensures var chunks := Split(seq(250, _ => 'a'), 100);
            |chunks| == 3 && |chunks[0]| == 100 && |chunks[1]| == 100 && |chunks[2]| == 50
  {
    var m := seq(250, _ => 'a');
    SplitWithoutSpaces(m, 100);
    assert m[100..][100..] == m[200..];
    assert HardChunks(m[200..], 100) == [m[200..]];
    assert HardChunks(m[100..], 100) == [m[100..][..100]] + [m[200..]];
  }

  /** The chunks of every reply, reply by reply, in order. */
  function AllChunks(replies: seq<string>): seq<string> {
    if replies == [] then []
    else AllChunks(replies[..|replies| - 1]) + Split(replies[|replies| - 1], DefaultMaxLength)
  }

  /** The flattening loop of `send_messages`: every reply split, the chunks in order. */
  method SplitAll(replies: seq<string>) returns (finalMessages: seq<string>)
    ensures finalMessages == AllChunks(replies)
  {
    finalMessages := [];
    for i := 0 to |replies|
      invariant finalMessages == AllChunks(replies[..i])
    {
      assert replies[..i + 1][..i] == replies[..i];
      var pieces := SplitMessage(replies[i], DefaultMaxLength);
      finalMessages := finalMessages + pieces;
    }
    assert replies[..|replies|] == replies;
  }

  /** One send succeeds: there is a client and the carrier accepts the message. */
  predicate Accepted(hasClient: bool, delivers: (string, string) -> bool, to: string, body: string) {
    hasClient && delivers(to, body)
  }

  /** The chunks before `j` and the one at `j` were accepted, so all up to `j` were. */
  lemma AcceptedThrough(hasClient: bool, delivers: (string, string) -> bool, to: string,
                        chunks: seq<string>, j: nat)
    requires j < |chunks| && Accepted(hasClient, delivers, to, chunks[j])
    requires forall k :: 0 <= k < j ==> Accepted(hasClient, delivers, to, chunks[k])
    ensures forall k :: 0 <= k < j + 1 ==> Accepted(hasClient, delivers, to, chunks[k])
  {
  }

  /**
   * The sending side: whether a client could be built from the credentials, and the log of
   * messages the carrier accepted. `delivers` stands for the carrier's answer to one send.
   */
  class Sender {
    const hasClient: bool
    var sent: seq<(string, string)>

    constructor (hasClient: bool)
      ensures this.hasClient == hasClient && sent == []
    {
      this.hasClient := hasClient;
      sent := [];
    }

    /** `send_message`: false without a client or when the carrier refuses; logged when accepted. */
    method SendMessage(to: string, body: string, delivers: (string, string) -> bool)
      returns (ok: bool)
      modifies this
      ensures ok == Accepted(hasClient, delivers, to, body)
      ensures sent == if ok then old(sent) + [(to, body)] else old(sent)
    {
      if !hasClient {
        return false;
      }
      ok := delivers(to, body);
      if ok {
        sent := sent + [(to, body)];
      }
    }

    /**
     * `send_messages`: splits every reply, sends all chunks in order, and stops at the first
     * send that fails, returning false; the chunks before it were sent, none after it.
     */
    method SendMessages(to: string, replies: seq<string>, delivers: (string, string) -> bool)
      returns (ok: bool)
      modifies this
      ensures var chunks := AllChunks(replies);
              var failure := Batching.FirstRejected(chunks, body => Accepted(hasClient, delivers, to, body));
              && (ok <==> failure.None?)
              && (ok ==> sent == old(sent) + Addressed(to, chunks))
              && (!ok ==> sent == old(sent) + Addressed(to, chunks[..failure.value]))
    {
      var finalMessages := SplitAll(replies);
      ghost var delivered := body => Accepted(hasClient, delivers, to, body);
      for j := 0 to |finalMessages|
        invariant sent == old(sent) + Addressed(to, finalMessages[..j])
        invariant forall k :: 0 <= k < j ==> Accepted(hasClient, delivers, to, finalMessages[k])
      {
        var success := SendMessage(to, finalMessages[j], delivers);
        if !success {
          assert forall k :: 0 <= k < j ==> finalMessages[..j][k] == finalMessages[k];
          Batching.FirstRejectedAt(finalMessages, delivered, j);
          return false;
        }
        AcceptedThrough(hasClient, delivers, to, finalMessages, j);
        assert finalMessages[..j + 1] == finalMessages[..j] + [finalMessages[j]];
        AddressedAppend(to, finalMessages[..j], [finalMessages[j]]);
      }
      assert finalMessages[..|finalMessages|] == finalMessages;
      Batching.FirstRejectedNone(finalMessages, delivered);
      ok := true;
    }
  }

  /** The log entries for sending `chunks` to `to`. */
  function Addressed(to: string, chunks: seq<string>): (r: seq<(string, string)>)
    ensures |r| == |chunks| && forall k :: 0 <= k < |r| ==> r[k] == (to, chunks[k])
  {
    seq(|chunks|, k requires 0 <= k < |chunks| => (to, chunks[k]))
  }

  lemma AddressedAppend(to: string, a: seq<string>, b: seq<string>)
    ensures Addressed(to, a + b) == Addressed(to, a) + Addressed(to, b)
  {
  }
}
