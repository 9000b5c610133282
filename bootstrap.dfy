/**
 * The bootstrap `initialise(data)`: a direct message whose text starts with a mention
 * `<@...>` records the mentioned id, stripped of `<`, `>` and `@`, as `SLACK_BOT_USER_ID` in the
 * `.env` file, leaving every other entry as it was.
 */
module Bootstrap {
  import opened Wrappers
  import opened Text

  const BotUserIdKey := "SLACK_BOT_USER_ID"

  /** The characters `.` does not match in a JavaScript regular expression. */
  predicate IsLineTerminator(c: char) {
    c == '\n' || c == '\r' || c == '\U{2028}' || c == '\U{2029}'
  }

  predicate NoLineTerminators(s: string) {
    forall i :: 0 <= i < |s| ==> !IsLineTerminator(s[i])
  }

  /** A string `^<@.*?>` matches as a whole: `<@`, a run without line terminators, `>`. */
  predicate IsMentionToken(t: string) {
    |t| >= 3 && t[..2] == "<@" && t[|t| - 1] == '>' && NoLineTerminators(t[2..|t| - 1])
  }

  /**
   * The lazy `.*?>` from position `i` on: the end of the first `>`, unless a line terminator
   * comes first or the text ends.
   */
  function MentionEnd(text: string, i: nat): (e: Option<nat>)
    requires 2 <= i <= |text| && text[..2] == "<@"
    requires forall k :: 2 <= k < i ==> text[k] != '>' && !IsLineTerminator(text[k])
    ensures e.Some? ==> i < e.value <= |text| && IsMentionToken(text[..e.value])
    ensures e.Some? ==> forall n :: 0 <= n < e.value ==> !IsMentionToken(text[..n])
    ensures e.None? ==> forall n :: 0 <= n <= |text| ==> !IsMentionToken(text[..n])
    decreases |text| - i
  {
    if i == |text| then None
    else if text[i] == '>' then
      assert text[..i + 1][2..i] == text[2..i];
      Some(i + 1)
    else if IsLineTerminator(text[i]) then
      assert forall n :: i < n <= |text| ==> !IsMentionToken(text[..n]) by {
        forall n | i + 1 < n <= |text|
          ensures !IsMentionToken(text[..n])
        {
          var inner := text[..n][2..n - 1];
          assert inner[i - 2] == text[i];
          assert !NoLineTerminators(inner);
        }
      }
      None
    else MentionEnd(text, i + 1)
  }

  /** `text.match(/^<@.*?>/g)`: the shortest prefix that is a mention token, if there is one. */
  function LeadingMention(text: string): (m: Option<string>)
    ensures m.Some? ==> m.value <= text && IsMentionToken(m.value)
    ensures m.Some? ==> forall n :: 0 <= n < |m.value| ==> !IsMentionToken(text[..n])
    ensures m.None? ==> forall n :: 0 <= n <= |text| ==> !IsMentionToken(text[..n])
  {
    if |text| >= 2 && text[..2] == "<@" then
      match MentionEnd(text, 2)
      case Some(e) => Some(text[..e])
      case None => None
    else
      assert forall n :: 0 <= n <= |text| && |text[..n]| >= 3 ==> text[..n][..2] == text[..2];
      None
  }

  const MentionChars: set<char> := {'<', '>', '@'}

  /** `userMatch[0].replace(/[<>@]/g, "")`, or `None` when there was no match. */
  function ExtractBotId(text: string): (id: Option<string>)
    ensures id.Some? <==> LeadingMention(text).Some?
    ensures id.Some? ==> forall i :: 0 <= i < |id.value| ==> id.value[i] !in MentionChars
    ensures id.Some? ==>
      var m := LeadingMention(text).value;
      id.value == Remove(m[2..|m| - 1], MentionChars)
  {
    match LeadingMention(text)
    case Some(token) =>
      RemoveMarks(token);
      Some(Remove(token, MentionChars))
    case None => None
  }

  /** Removing the marks from a mention token leaves its inner text without marks. */
  lemma RemoveMarks(token: string)
    requires IsMentionToken(token)
    ensures Remove(token, MentionChars) == Remove(token[2..|token| - 1], MentionChars)
  {
    var inner := token[2..|token| - 1];
    assert token == "<@" + inner + ">" by {
      assert token == token[..2] + inner + [token[|token| - 1]];
    }
    RemoveAppend("<@", inner, MentionChars);
    RemoveAppend("<@" + inner, ">", MentionChars);
    assert Remove("<@", MentionChars) == "" by {
      assert "<@" == ['<'] + ['@'];
      RemoveAppend(['<'], ['@'], MentionChars);
      RemoveOne('<', MentionChars);
      RemoveOne('@', MentionChars);
    }
    RemoveOne('>', MentionChars);
  }

  /**
   * A direct message that starts with a mention of a plain id (as Slack writes `<@U123>`)
   * records exactly that id.
   */
  lemma {:induction false} ExtractMentionedId(id: string, rest: string)
    requires forall i :: 0 <= i < |id| ==> id[i] !in MentionChars && !IsLineTerminator(id[i])
    ensures ExtractBotId("<@" + id + ">" + rest) == Some(id)
  {
    var text := "<@" + id + ">" + rest;
    var token := "<@" + id + ">";
    assert text[..|token|] == token;
    assert IsMentionToken(token) by {
      assert token[2..|token| - 1] == id;
    }
    // no shorter prefix ends in '>' after the "<@"
    forall n | 0 <= n < |token|
      ensures !IsMentionToken(text[..n])
    {
      if n >= 3 {
        assert text[..n][n - 1] == id[n - 3];
      }
    }
    var m := LeadingMention(text);
    assert m.Some? && m.value == text[..|m.value|];
    assert m.value == token;
    RemoveAppend("<@", id, MentionChars);
    RemoveAppend("<@" + id, ">", MentionChars);
    RemoveNothing(id, MentionChars);
    assert Remove("<@", MentionChars) == "";
    assert Remove(">", MentionChars) == "";
    assert Remove(token, MentionChars) == id;
    assert ExtractBotId(text) == Some(Remove(token, MentionChars));
  }

  /** What `initialise` ends in. */
  datatype InitResult =
    | ReadFailed         // reading `.env` failed: the error is logged, nothing is written
    | Crashed            // no leading mention: `userMatch[0]` throws inside the read callback
    | Stored(id: string) // the id was written under `SLACK_BOT_USER_ID`

  /** The parsed `.env` file (`envfile.parse`), updated in place and written back. */
  class EnvFile {
    var entries: map<string, string>

    constructor (parsed: map<string, string>)
      ensures entries == parsed
    {
      entries := parsed;
    }

    /**
     * `initialise(data)` on the direct message `text`; `readFailed` is the outcome of reading
     * the file.
     */
    method Initialise(text: string, readFailed: bool) returns (r: InitResult)
      modifies this
      ensures readFailed ==> r == ReadFailed
      ensures !readFailed && ExtractBotId(text).None? ==> r == Crashed
      ensures !readFailed && ExtractBotId(text).Some? ==> r == Stored(ExtractBotId(text).value)
      ensures r.Stored? ==> entries == old(entries)[BotUserIdKey := r.id]
      ensures !r.Stored? ==> entries == old(entries)
      ensures forall k :: k != BotUserIdKey ==>
        (k in entries <==> k in old(entries)) && (k in entries ==> entries[k] == old(entries)[k])
    {
      var userMatch := LeadingMention(text);
      if readFailed {
        return ReadFailed;
      }
      if userMatch.None? {
        return Crashed;
      }
      var id := Remove(userMatch.value, MentionChars);
      entries := entries[BotUserIdKey := id];
      r := Stored(id);
    }
  }
}
