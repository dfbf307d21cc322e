/** The text helpers of botv1/bot/utils.py that do not build embeds: input
    validation for new quests, truncation to embed limits, quest id syntax,
    the plain-text quest list and mention strings.
 */
module Utils {
  import opened Common
  import opened Text
  import opened Models
  import QuestManager

  // ------------------------------------------------------------ validation

  const TitleLengthMessage := "Quest title must be between 1 and 100 characters"
  const DescriptionLengthMessage := "Quest description must be between 1 and 2000 characters"
  const RequirementsLengthMessage := "Requirements must be less than 1000 characters"
  const RewardLengthMessage := "Reward must be less than 1000 characters"

  predicate TitleOk(title: string) { 1 <= |title| <= 100 }
  predicate DescriptionOk(description: string) { 1 <= |description| <= 2000 }
  /** Despite the message, exactly 1000 characters are accepted. */
  predicate ExtraOk(text: string) { |text| <= 1000 }

  /** `validate_quest_data`: the first failing check's message, in the order
      title, description, requirements, reward; nothing when all pass. */
  function ValidateQuestData(title: string, description: string,
                             requirements: string := "", reward: string := ""): (r: Option<string>)
    ensures r.None? <==>
      TitleOk(title) && DescriptionOk(description) && ExtraOk(requirements) && ExtraOk(reward)
    ensures r == Some(TitleLengthMessage) <==> !TitleOk(title)
    ensures r == Some(DescriptionLengthMessage) <==> TitleOk(title) && !DescriptionOk(description)
    ensures r == Some(RequirementsLengthMessage) <==>
      TitleOk(title) && DescriptionOk(description) && !ExtraOk(requirements)
    ensures r == Some(RewardLengthMessage) <==>
      TitleOk(title) && DescriptionOk(description) && ExtraOk(requirements) && !ExtraOk(reward)
  {
    assert |TitleLengthMessage| == 48 && |DescriptionLengthMessage| == 55;
    assert |RequirementsLengthMessage| == 46 && |RewardLengthMessage| == 40;
    if |title| == 0 || |title| > 100 then Some(TitleLengthMessage)
    else if |description| == 0 || |description| > 2000 then Some(DescriptionLengthMessage)
    else if |requirements| > 1000 then Some(RequirementsLengthMessage)
    else if |reward| > 1000 then Some(RewardLengthMessage)
    else None
  }

  // ------------------------------------------------------------ truncation

  const Ellipsis := "..."

  /** `truncate_text`: text that fits is kept; longer text keeps its first
      `maxLength - 3` characters (Python's slice, so a negative bound counts
      from the end) followed by "...". */
  function TruncateText(text: string, maxLength: int := 1000): (r: string)
    ensures |text| <= maxLength ==> r == text
    ensures |text| > maxLength ==>
      && 3 <= |r| <= |text| + 3
      && r[|r| - 3..] == Ellipsis
      && r[..|r| - 3] == text[..|r| - 3]
    ensures |text| > maxLength && maxLength >= 3 ==> |r| == maxLength
    ensures |text| > maxLength && maxLength < 3 ==>
      |r| == (if |text| + maxLength >= 3 then |text| + maxLength else 3)
  {
    if |text| <= maxLength then text
    else
      var kept := SliceTo(text, maxLength - 3);
      assert (kept + Ellipsis)[..|kept|] == kept;
      kept + Ellipsis
  }

  /** With room for the ellipsis the result always fits, and truncating
      again changes nothing. */
  lemma TruncateFits(text: string, maxLength: int)
    requires maxLength >= 3
    ensures |TruncateText(text, maxLength)| <= maxLength
    ensures TruncateText(TruncateText(text, maxLength), maxLength) == TruncateText(text, maxLength)
  {
  }

  /** The result fits the limit exactly when the text already did or there
      is room for the ellipsis; below three characters of room a cut text is
      longer than the limit (with the default limit of 1000 this never arises). */
  lemma TruncateFitsIffRoom(text: string, maxLength: int)
    ensures |TruncateText(text, maxLength)| <= maxLength <==> |text| <= maxLength || maxLength >= 3
  {
  }

  // ------------------------------------------------------------- quest ids

  /** `is_valid_quest_id`: eight characters that are, once the dashes are
      removed, a non-empty run of letters and digits. */
  function IsValidQuestId(questId: string): (b: bool)
    ensures b <==>
      && |questId| == 8
      && (exists i :: 0 <= i < |questId| && questId[i] != '-')
      && (forall i :: 0 <= i < |questId| ==> questId[i] == '-' || IsAsciiAlnum(questId[i]))
  {
    var stripped := RemoveChar(questId, '-');
    assert (exists i :: 0 <= i < |questId| && questId[i] != '-') <==> |stripped| > 0 by {
      if exists i :: 0 <= i < |questId| && questId[i] != '-' {
        var i :| 0 <= i < |questId| && questId[i] != '-';
        assert questId[i] in stripped;
      }
      if |stripped| > 0 {
        assert stripped[0] in questId;
      }
    }
    assert (forall i :: 0 <= i < |stripped| ==> IsAsciiAlnum(stripped[i]))
       <==> (forall i :: 0 <= i < |questId| ==> questId[i] == '-' || IsAsciiAlnum(questId[i])) by {
      if forall i :: 0 <= i < |stripped| ==> IsAsciiAlnum(stripped[i]) {
        forall i | 0 <= i < |questId| && questId[i] != '-'
          ensures IsAsciiAlnum(questId[i])
        {
          assert questId[i] in stripped;
        }
      }
      if forall i :: 0 <= i < |questId| ==> questId[i] == '-' || IsAsciiAlnum(questId[i]) {
        forall i | 0 <= i < |stripped|
          ensures IsAsciiAlnum(stripped[i])
        {
          assert stripped[i] in questId;
        }
      }
    }
    |questId| == 8 && IsAlnum(stripped)
  }

  /** Every id `create_quest` hands out passes the check. */
  lemma CreatedIdsAreValid(uuid: string)
    requires QuestManager.UuidText(uuid)
    ensures IsValidQuestId(SliceTo(uuid, 8))
  {
    QuestManager.UuidPrefixIsHex(uuid);
    var id := SliceTo(uuid, 8);
    assert id[0] != '-';
  }

  /** A text of dashes alone is never a quest id: nothing is left once they go. */
  lemma DashesAreNotAnId(s: string)
    requires forall i :: 0 <= i < |s| ==> s[i] == '-'
    ensures !IsValidQuestId(s)
  {
  }

  // ------------------------------------------------------------ quest list

  const NoQuestsText := "No quests available"

  /** One quest's line: bold title, id in backticks, title-cased rank. It
      opens with the bold title and ends with the rank, and it stays on one
      line when the quest's fields do. */
  function QuestLine(q: Quest): (r: string)
    ensures |r| >= |q.title| + 4 && r[..|q.title| + 4] == "**" + q.title + "**"
    ensures |r| >= |q.rank| && r[|r| - |q.rank|..] == TitleCase(q.rank)
    ensures '\n' !in q.title && '\n' !in q.questId && '\n' !in q.rank ==> '\n' !in r
  {
    var rank := TitleCase(q.rank);
    assert '\n' !in q.rank ==> '\n' !in rank by {
      if '\n' in rank {
        var i :| 0 <= i < |rank| && rank[i] == '\n';
        assert !IsAsciiLetter(q.rank[i]);
      }
    }
    var r := "**" + q.title + "** (ID: `" + q.questId + "`) - " + rank;
    assert r == ("**" + q.title + "**") + (" (ID: `" + q.questId + "`) - " + rank);
    r
  }

  /** The line that counts the quests left off the list: the count can be
      read back from it, and it holds no newline. */
  function MoreLine(hidden: int): (r: string)
    ensures |r| >= 13 && r[..8] == "... and " && r[|r| - 5..] == " more"
    ensures r[8..|r| - 5] == IntToString(hidden)
    ensures '\n' !in r
  {
    IntToStringShape(hidden);
    "... and " + IntToString(hidden) + " more"
  }

  /** The lines of a non-empty list: the first `maxQuests` quests (Python's
      slice), then a count of the rest when there are more than `maxQuests`. */
  function ListLines(quests: seq<Quest>, maxQuests: int): (r: seq<string>)
    ensures |r| == |SliceTo(quests, maxQuests)| + (if |quests| > maxQuests then 1 else 0)
    ensures forall i :: 0 <= i < |SliceTo(quests, maxQuests)| ==> r[i] == QuestLine(quests[i])
    ensures |quests| > maxQuests ==> r[|r| - 1] == MoreLine(|quests| - maxQuests)
  {
    MapSeq(SliceTo(quests, maxQuests), QuestLine)
      + (if |quests| > maxQuests then [MoreLine(|quests| - maxQuests)] else [])
  }

  /** `format_quest_list`: a fixed text for no quests, otherwise the lines
      joined by newlines. */
  function FormatQuestList(quests: seq<Quest>, maxQuests: int := 10): (r: string)
    ensures quests == [] <==> r == NoQuestsText
    ensures quests != [] ==> r == Join(ListLines(quests, maxQuests), '\n')
  {
    if quests == [] then NoQuestsText
    else
      var lines := ListLines(quests, maxQuests);
      JoinStartsWithFirst(lines, '\n');
      assert lines[0][0] == '*' || lines[0][0] == '.';
      assert NoQuestsText[0] == 'N';
      Join(lines, '\n')
  }

  /** A joined text begins with its first part. */
  lemma JoinStartsWithFirst(parts: seq<string>, sep: char)
    requires |parts| >= 1
    ensures |Join(parts, sep)| >= |parts[0]|
    ensures Join(parts, sep)[..|parts[0]|] == parts[0]
  {
    if |parts| > 1 {
      var j := Join(parts, sep);
      assert j == parts[0] + ([sep] + Join(parts[1..], sep));
    }
  }

  /** When no title, id or rank holds a newline, splitting the list at
      newlines gives back one line per shown quest, in order, then the count
      of the rest. */
  lemma {:induction false} FormatQuestListLines(quests: seq<Quest>, maxQuests: int)
    requires quests != []
    requires forall q :: q in quests ==> '\n' !in q.title && '\n' !in q.questId && '\n' !in q.rank
    ensures var lines := Split(FormatQuestList(quests, maxQuests), '\n');
      && |lines| == |SliceTo(quests, maxQuests)| + (if |quests| > maxQuests then 1 else 0)
      && (forall i :: 0 <= i < |SliceTo(quests, maxQuests)| ==> lines[i] == QuestLine(quests[i]))
      && (|quests| > maxQuests ==> lines[|lines| - 1] == MoreLine(|quests| - maxQuests))
  {
    var lines := ListLines(quests, maxQuests);
    var shown := SliceTo(quests, maxQuests);
    assert |lines| >= 1 by {
      if |quests| <= maxQuests {
        assert |shown| == |quests|;
      }
    }
    forall i | 0 <= i < |lines|
      ensures '\n' !in lines[i]
    {
      if i < |shown| {
        assert quests[i] in quests;
      }
    }
    SplitJoin(lines, '\n');
  }

  // -------------------------------------------------------------- mentions

  /** `get_user_mention`: `<@id>`. */
  function GetUserMention(userId: int): (r: string)
    ensures |r| >= 3 && r[..2] == "<@" && r[|r| - 1] == '>'
    ensures r[2..|r| - 1] == IntToString(userId)
  {
    "<@" + IntToString(userId) + ">"
  }

  /** `get_role_mention`: `<@&id>`. */
  function GetRoleMention(roleId: int): (r: string)
    ensures |r| >= 4 && r[..3] == "<@&" && r[|r| - 1] == '>'
    ensures r[3..|r| - 1] == IntToString(roleId)
  {
    "<@&" + IntToString(roleId) + ">"
  }

  /** Distinct ids give distinct mentions, and a user mention is never a role
      mention. */
  lemma MentionsAreUnambiguous(a: int, b: int)
    ensures GetUserMention(a) == GetUserMention(b) ==> a == b
    ensures GetRoleMention(a) == GetRoleMention(b) ==> a == b
    ensures GetUserMention(a) != GetRoleMention(b)
  {
    if GetUserMention(a) == GetUserMention(b) {
      var ua, ub := GetUserMention(a), GetUserMention(b);
      assert ua[2..|ua| - 1] == ub[2..|ub| - 1];
      IntToStringInjective(a, b);
    }
    if GetRoleMention(a) == GetRoleMention(b) {
      var ra, rb := GetRoleMention(a), GetRoleMention(b);
      assert ra[3..|ra| - 1] == rb[3..|rb| - 1];
      IntToStringInjective(a, b);
    }
    IntToStringShape(a);
    assert GetUserMention(a)[2] == IntToString(a)[0];
    assert GetRoleMention(b)[2] == '&';
  }

  /** A non-negative id can be read back from its mention. */
  lemma UserMentionParsesBack(userId: nat)
    ensures var r := GetUserMention(userId);
      && (forall i :: 2 <= i < |r| - 1 ==> IsDigitChar(r[i]))
      && DigitsValue(r[2..|r| - 1]) == userId
  {
    DigitsValueOfNatToString(userId);
  }
}
