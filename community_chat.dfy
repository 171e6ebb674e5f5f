/**
 * The community chat: two seeded messages, a send that appends the user's
 * message, and a robot follow-up queued when the message mentions prayer or
 * dawn.
 */
module CommunityChat {
  import opened Text
  import opened Profile

  datatype Role = UserRole | AdminRole | RobotRole

  datatype CommunityMessage = CommunityMessage(
    id: string, userId: string, userName: string, role: Role, text: string, timestamp: string)

  /** The messages the chat opens with: the admin's welcome and the robot's. */
  const Seeded: seq<CommunityMessage> := [
    CommunityMessage("1", "admin", "المشرف علي طه", AdminRole,
      "أهلاً بكم في مجتمع صديقك المسلم! كيف يمكننا مساعدتكم اليوم؟", "10:00 AM"),
    CommunityMessage("2", "robot", "الروبوت علي", RobotRole,
      "أنا هنا أيضاً للإجابة على أسئلتكم الفقهية والتقنية.", "10:05 AM")
  ]

  /** The words that make the robot answer. */
  const PrayerWord: string := "صلاة"
  const DawnWord: string := "فجر"

  /** The robot's fixed follow-up, sent at `now`. */
  function RobotReply(now: nat): CommunityMessage {
    CommunityMessage(NatToString(now), "robot", "الروبوت علي", RobotRole,
      "تذكروا أن صلاة الفجر هي نور يومكم. هل أعددتم منبه الفجر القوي؟", "الآن")
  }

  /** Whether a sent text gets a robot follow-up. */
  predicate TriggersRobot(text: string) {
    Contains(text, PrayerWord) || Contains(text, DawnWord)
  }

  /** A message stands on the user's own side exactly when it carries the user's id. */
  predicate IsOwn(m: CommunityMessage, user: UserProfile) {
    m.userId == user.id
  }

  /** The message a send creates: the user's id and name, role 'user', the text as typed. */
  function UserMessage(user: UserProfile, text: string, now: nat, timestamp: string): (m: CommunityMessage)
    ensures IsOwn(m, user) && m.role == UserRole && m.text == text
  {
    CommunityMessage(NatToString(now), user.id, user.name, UserRole, text, timestamp)
  }

  /** A text that mentions either word, anywhere, triggers the follow-up. */
  lemma MentionTriggers(before: string, word: string, after: string)
    requires word == PrayerWord || word == DawnWord
    ensures TriggersRobot(before + word + after)
  {
    var s := before + word + after;
    assert s[|before|..|before| + |word|] == word;
    assert IsAt(s, word, |before|);
  }

  /** The robot's follow-up is on the user's side only for a user whose id is 'robot'. */
  lemma RobotReplySide(user: UserProfile, now: nat)
    ensures IsOwn(RobotReply(now), user) <==> user.id == "robot"
  {
  }

  class CommunityScreen {
    var messages: seq<CommunityMessage>
    var input: string
    /** Robot follow-ups scheduled and not yet delivered. */
    var pendingReplies: nat

    constructor ()
      ensures messages == Seeded && input == "" && pendingReplies == 0
    {
      messages, input, pendingReplies := Seeded, "", 0;
    }

    method Type(text: string)
      modifies this
      ensures input == text && messages == old(messages) && pendingReplies == old(pendingReplies)
    {
      input := text;
    }

    /**
     * `handleSend`: a blank input changes nothing; otherwise exactly one
     * message, the user's own, is appended, the box is cleared, and a robot
     * follow-up is scheduled when the text mentions prayer or dawn.
     */
    method Send(user: UserProfile, now: nat, timestamp: string)
      modifies this
      ensures IsBlank(old(input)) ==>
        messages == old(messages) && input == old(input) && pendingReplies == old(pendingReplies)
      ensures !IsBlank(old(input)) ==>
        (&& messages == old(messages) + [UserMessage(user, old(input), now, timestamp)]
         && input == ""
         && pendingReplies == old(pendingReplies) + (if TriggersRobot(old(input)) then 1 else 0))
    {
      if Trim(input) == [] {
        return;
      }
      var text := input;
      messages := messages + [UserMessage(user, text, now, timestamp)];
      input := "";
      if Contains(text, PrayerWord) || Contains(text, DawnWord) {
        pendingReplies := pendingReplies + 1;
      }
    }

    /** A scheduled follow-up arrives and is appended after whatever came since. */
    method DeliverReply(now: nat)
      requires pendingReplies > 0
      modifies this
      ensures messages == old(messages) + [RobotReply(now)]
      ensures pendingReplies == old(pendingReplies) - 1 && input == old(input)
    {
      messages := messages + [RobotReply(now)];
      pendingReplies := pendingReplies - 1;
    }
  }
}
