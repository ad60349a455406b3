/**
 * Turn reconstruction: the three `parse_*_messages` methods of the parser,
 * each walking the message list with a fixed stride and offset and turning
 * every group of messages into one row of five fields.
 */
module Turns {
  import opened Wrappers
  import opened Records

  /** One conversational turn: the five message columns of an exported row. */
  datatype Turn = Turn(
    timestamp: string,
    system: Option<string>,
    user: Option<string>,
    rag: Option<string>,
    assistant: Option<string>)

  /**
   * The only way reconstruction fails: Python's IndexError, raised both by an
   * index past the end of the message list and by `content[0]` on an empty
   * content list.
   */
  datatype ParseError = IndexError

  /** `messages[k].get("content")[0].get("text")`, failing as Python does. */
  function TextAt(messages: seq<Message>, k: nat): (r: Result<string, ParseError>)
    ensures r.Success? <==> k < |messages| && |messages[k].content| > 0
    ensures r.Success? ==> r.value == messages[k].content[0].text
  {
    if k >= |messages| || |messages[k].content| == 0 then Failure(IndexError)
    else Success(messages[k].content[0].text)
  }

  // ---------------------------------------------------------------- general

  /** The `general` turn whose user message is at `p`: user `p`, assistant `p + 1`, no system or retrieved text. */
  function GeneralTurnAt(messages: seq<Message>, p: nat): Turn
    requires p + 1 < |messages|
    requires |messages[p].content| > 0 && |messages[p + 1].content| > 0
  {
    Turn(messages[p].timestamp, None, Some(messages[p].content[0].text), None,
         Some(messages[p + 1].content[0].text))
  }

  /** The `general` loop from index `start` on: user at `start`, assistant at `start + 1`. */
  function GeneralRowsFrom(messages: seq<Message>, start: nat): (r: Result<seq<Turn>, ParseError>)
    ensures r.Success? <==>
              && (start >= |messages| || (|messages| - start) % 2 == 0)
              && forall k :: start <= k < |messages| ==> |messages[k].content| > 0
    ensures r.Success? ==> |r.value| == if start >= |messages| then 0 else (|messages| - start) / 2
    decreases |messages| - start
  {
    if start >= |messages| then Success([])
    else
      assert (|messages| - start) % 2 == (|messages| - (start + 2)) % 2;
      assert start + 2 < |messages| ==> (|messages| - start) / 2 == 1 + (|messages| - (start + 2)) / 2;
      var user :- TextAt(messages, start);
      var assistant :- TextAt(messages, start + 1);
      var rest :- GeneralRowsFrom(messages, start + 2);
      Success([Turn(messages[start].timestamp, None, Some(user), None, Some(assistant))] + rest)
  }

  /** Row `i` of the `general` loop from `start` is built from messages `start + 2i` and `start + 2i + 1`. */
  lemma {:induction false} GeneralRowsFromShape(messages: seq<Message>, start: nat)
    requires GeneralRowsFrom(messages, start).Success?
    ensures var rows := GeneralRowsFrom(messages, start).value;
            forall i :: 0 <= i < |rows| ==>
              && start + 2 * i + 1 < |messages|
              && rows[i] == GeneralTurnAt(messages, start + 2 * i)
    decreases |messages| - start
  {
    if start < |messages| {
      var rows := GeneralRowsFrom(messages, start).value;
      var rest := GeneralRowsFrom(messages, start + 2).value;
      GeneralRowsFromShape(messages, start + 2);
      assert rows[1..] == rest;
      forall i | 0 <= i < |rows|
        ensures && start + 2 * i + 1 < |messages|
                && rows[i] == GeneralTurnAt(messages, start + 2 * i)
      {
        if i > 0 {
          assert rows[i] == rest[i - 1];
          assert start + 2 * i == (start + 2) + 2 * (i - 1);
        }
      }
    }
  }

  /**
   * `parse_general_messages`: the list is (user, assistant) pairs. It succeeds
   * exactly when the length is even and every message has content; then row
   * `i` is built from messages `2i` and `2i + 1`.
   */
  function ParseGeneralMessages(messages: seq<Message>): (r: Result<seq<Turn>, ParseError>)
    ensures r.Success? <==>
              && |messages| % 2 == 0
              && forall k :: 0 <= k < |messages| ==> |messages[k].content| > 0
    ensures r.Success? ==> |r.value| == |messages| / 2
    ensures r.Success? ==>
              forall i :: 0 <= i < |r.value| ==>
                r.value[i] == GeneralTurnAt(messages, 2 * i)
  {
    var r := GeneralRowsFrom(messages, 0);
    if r.Success? then
      GeneralRowsFromShape(messages, 0);
      r
    else
      r
  }

  // ----------------------------------------------------------------- prompt

  /** The `prompt` turn whose user message is at `p`: system 0, user `p`, assistant `p + 1`, no retrieved text. */
  function PromptTurnAt(messages: seq<Message>, p: nat): Turn
    requires 1 <= p && p + 1 < |messages|
    requires |messages[0].content| > 0 && |messages[p].content| > 0 && |messages[p + 1].content| > 0
  {
    Turn(messages[p].timestamp, Some(messages[0].content[0].text), Some(messages[p].content[0].text), None,
         Some(messages[p + 1].content[0].text))
  }

  /** The `prompt` loop from index `start` on: system at 0, user at `start`, assistant at `start + 1`. */
  function PromptRowsFrom(messages: seq<Message>, start: nat): (r: Result<seq<Turn>, ParseError>)
    requires start >= 1
    ensures r.Success? <==>
              && (start >= |messages| || ((|messages| - start) % 2 == 0 && |messages[0].content| > 0))
              && forall k :: start <= k < |messages| ==> |messages[k].content| > 0
    ensures r.Success? ==> |r.value| == if start >= |messages| then 0 else (|messages| - start) / 2
    decreases |messages| - start
  {
    if start >= |messages| then Success([])
    else
      assert (|messages| - start) % 2 == (|messages| - (start + 2)) % 2;
      assert start + 2 < |messages| ==> (|messages| - start) / 2 == 1 + (|messages| - (start + 2)) / 2;
      var system :- TextAt(messages, 0);
      var user :- TextAt(messages, start);
      var assistant :- TextAt(messages, start + 1);
      var rest :- PromptRowsFrom(messages, start + 2);
      Success([Turn(messages[start].timestamp, Some(system), Some(user), None, Some(assistant))] + rest)
  }

  /**
   * Row `i` of the `prompt` loop from `start` takes its system text from
   * message 0 and its user and assistant from `start + 2i` and `start + 2i + 1`.
   */
  lemma {:induction false} PromptRowsFromShape(messages: seq<Message>, start: nat)
    requires start >= 1
    requires PromptRowsFrom(messages, start).Success?
    ensures var rows := PromptRowsFrom(messages, start).value;
            forall i :: 0 <= i < |rows| ==>
              && start + 2 * i + 1 < |messages|
              && rows[i] == PromptTurnAt(messages, start + 2 * i)
    decreases |messages| - start
  {
    if start < |messages| {
      var rows := PromptRowsFrom(messages, start).value;
      var rest := PromptRowsFrom(messages, start + 2).value;
      PromptRowsFromShape(messages, start + 2);
      assert rows[1..] == rest;
      forall i | 0 <= i < |rows|
        ensures && start + 2 * i + 1 < |messages|
                && rows[i] == PromptTurnAt(messages, start + 2 * i)
      {
        if i > 0 {
          assert rows[i] == rest[i - 1];
          assert start + 2 * i == (start + 2) + 2 * (i - 1);
        }
      }
    }
  }

  /**
   * `parse_prompt_messages`: message 0 is the session-wide system prompt,
   * followed by (user, assistant) pairs. It succeeds exactly when the length
   * is 0 or odd and every message it reads has content; then every row shares
   * the system text of message 0 and row `i` takes its user and assistant
   * from messages `1 + 2i` and `2 + 2i`.
   */
  function ParsePromptMessages(messages: seq<Message>): (r: Result<seq<Turn>, ParseError>)
    ensures r.Success? <==>
              && (|messages| == 0 || |messages| % 2 == 1)
              && (|messages| > 1 ==> |messages[0].content| > 0)
              && forall k :: 1 <= k < |messages| ==> |messages[k].content| > 0
    ensures r.Success? ==> |r.value| == if |messages| == 0 then 0 else (|messages| - 1) / 2
    ensures r.Success? ==>
              forall i :: 0 <= i < |r.value| ==>
                r.value[i] == PromptTurnAt(messages, 1 + 2 * i)
  {
    var r := PromptRowsFrom(messages, 1);
    if r.Success? then
      PromptRowsFromShape(messages, 1);
      r
    else
      r
  }

  // -------------------------------------------------------------------- rag

  /** The `rag` turn whose user message is at `p`: system 0, user `p`, retrieved text `p + 1`, assistant `p + 2`. */
  function RagTurnAt(messages: seq<Message>, p: nat): Turn
    requires 1 <= p && p + 2 < |messages|
    requires |messages[0].content| > 0 && |messages[p].content| > 0
    requires |messages[p + 1].content| > 0 && |messages[p + 2].content| > 0
  {
    Turn(messages[p].timestamp, Some(messages[0].content[0].text), Some(messages[p].content[0].text),
         Some(messages[p + 1].content[0].text), Some(messages[p + 2].content[0].text))
  }

  /**
   * The `rag` loop from index `start` on: system at 0, user at `start`,
   * retrieved text at `start + 1`, assistant at `start + 2`.
   */
  function RagRowsFrom(messages: seq<Message>, start: nat): (r: Result<seq<Turn>, ParseError>)
    requires start >= 1
    ensures r.Success? <==>
              && (start >= |messages| || ((|messages| - start) % 3 == 0 && |messages[0].content| > 0))
              && forall k :: start <= k < |messages| ==> |messages[k].content| > 0
    ensures r.Success? ==> |r.value| == if start >= |messages| then 0 else (|messages| - start) / 3
    decreases |messages| - start
  {
    if start >= |messages| then Success([])
    else
      assert (|messages| - start) % 3 == (|messages| - (start + 3)) % 3;
      assert start + 3 < |messages| ==> (|messages| - start) / 3 == 1 + (|messages| - (start + 3)) / 3;
      var system :- TextAt(messages, 0);
      var user :- TextAt(messages, start);
      var rag :- TextAt(messages, start + 1);
      var assistant :- TextAt(messages, start + 2);
      var rest :- RagRowsFrom(messages, start + 3);
      Success([Turn(messages[start].timestamp, Some(system), Some(user), Some(rag), Some(assistant))] + rest)
  }

  /**
   * Row `i` of the `rag` loop from `start` takes its system text from message
   * 0 and its user, retrieved text and assistant from `start + 3i`,
   * `start + 3i + 1` and `start + 3i + 2`.
   */
  lemma {:induction false} RagRowsFromShape(messages: seq<Message>, start: nat)
    requires start >= 1
    requires RagRowsFrom(messages, start).Success?
    ensures var rows := RagRowsFrom(messages, start).value;
            forall i :: 0 <= i < |rows| ==>
              && start + 3 * i + 2 < |messages|
              && rows[i] == RagTurnAt(messages, start + 3 * i)
    decreases |messages| - start
  {
    if start < |messages| {
      var rows := RagRowsFrom(messages, start).value;
      var rest := RagRowsFrom(messages, start + 3).value;
      RagRowsFromShape(messages, start + 3);
      assert rows[1..] == rest;
      forall i | 0 <= i < |rows|
        ensures && start + 3 * i + 2 < |messages|
                && rows[i] == RagTurnAt(messages, start + 3 * i)
      {
        if i > 0 {
          var p := start + 3 * i;
          assert p == (start + 3) + 3 * (i - 1);
          assert rows[i] == rest[i - 1];
        } else {
          assert rows[0] == RagTurnAt(messages, start);
        }
      }
    }
  }

  /**
   * `parse_rag_messages`: message 0 is the system prompt, followed by
   * (user, retrieved text, assistant) triples. It succeeds exactly when the
   * length is 0 or one more than a multiple of 3 and every message it reads
   * has content; then every row has all four texts, row `i` taking them from
   * messages 0, `1 + 3i`, `2 + 3i` and `3 + 3i`.
   */
  function ParseRagMessages(messages: seq<Message>): (r: Result<seq<Turn>, ParseError>)
    ensures r.Success? <==>
              && (|messages| == 0 || (|messages| - 1) % 3 == 0)
              && (|messages| > 1 ==> |messages[0].content| > 0)
              && forall k :: 1 <= k < |messages| ==> |messages[k].content| > 0
    ensures r.Success? ==> |r.value| == if |messages| == 0 then 0 else (|messages| - 1) / 3
    ensures r.Success? ==>
              forall i :: 0 <= i < |r.value| ==>
                r.value[i] == RagTurnAt(messages, 1 + 3 * i)
  {
    var r := RagRowsFrom(messages, 1);
    if r.Success? then
      RagRowsFromShape(messages, 1);
      r
    else
      r
  }

  // --------------------------------------------------------------- coverage

  /** In a `general` list that parses, message `k` is the user (k even) or the assistant (k odd) of row `k / 2`. */
  lemma GeneralUsesEveryMessage(messages: seq<Message>, k: nat)
    requires ParseGeneralMessages(messages).Success?
    requires k < |messages|
    ensures var rows := ParseGeneralMessages(messages).value;
            && k / 2 < |rows|
            && if k % 2 == 0 then rows[k / 2].user == Some(messages[k].content[0].text)
               else rows[k / 2].assistant == Some(messages[k].content[0].text)
  {
  }

  /**
   * In a `prompt` list that parses, message `k >= 1` is the user (k odd) or
   * the assistant (k even) of row `(k - 1) / 2`; message 0 is read only as
   * the system text.
   */
  lemma PromptUsesEveryMessage(messages: seq<Message>, k: nat)
    requires ParsePromptMessages(messages).Success?
    requires 1 <= k < |messages|
    ensures var rows := ParsePromptMessages(messages).value;
            && (k - 1) / 2 < |rows|
            && if k % 2 == 1 then rows[(k - 1) / 2].user == Some(messages[k].content[0].text)
               else rows[(k - 1) / 2].assistant == Some(messages[k].content[0].text)
  {
  }

  /**
   * In a `rag` list that parses, message `k >= 1` is the user, the retrieved
   * text or the assistant of row `(k - 1) / 3`, by its position in the triple.
   */
  lemma RagUsesEveryMessage(messages: seq<Message>, k: nat)
    requires ParseRagMessages(messages).Success?
    requires 1 <= k < |messages|
    ensures var rows := ParseRagMessages(messages).value;
            && (k - 1) / 3 < |rows|
            && if (k - 1) % 3 == 0 then rows[(k - 1) / 3].user == Some(messages[k].content[0].text)
               else if (k - 1) % 3 == 1 then rows[(k - 1) / 3].rag == Some(messages[k].content[0].text)
               else rows[(k - 1) / 3].assistant == Some(messages[k].content[0].text)
  {
  }
}
