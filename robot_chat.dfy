/**
 * The chat with the robot companion: the user's question is appended, the
 * answer service is asked with the conversation so far, and its reply is
 * appended with any `<drawing>...</drawing>` block taken out and kept as the
 * message's drawing.
 */
module RobotChat {
  import opened Wrappers
  import opened Text

  datatype Role = User | Model

  /** A chat message; `drawing` is the SVG the reply carried, if any. */
  datatype Message = Message(role: Role, text: string, drawing: Option<string>)

  /** The single message the chat opens with, greeting the user by name. */
  function Greeting(userName: string): Message {
    Message(Model, GreetingOpening + userName + GreetingRest, None)
  }

  const GreetingOpening: string := "أهلاً بك يا "
  const GreetingRest: string :=
    "! معك رفيقك \"علي\"، أنا هنا لأصحبك في رحلتك الإيمانية بكل حكمة. اسألني عن أي شيء، وسأشرح لك بالرسم إن لزم الأمر."

  /** What the reply text falls back to when nothing but a drawing came back. */
  const DrawingFallback: string := "إليك هذا الرسم التوضيحي:"

  const OpenTag: string := "<drawing>"
  const CloseTag: string := "</drawing>"

  // -------------------------------------------------------- drawing blocks

  /**
   * Where `/<drawing>([\s\S]*?)<\/drawing>/` matches: the first `<drawing>`
   * and the nearest `</drawing>` after it. Returns the start of the opening
   * tag and the start of the closing tag.
   */
  function FindDrawing(s: string): (r: Option<(nat, nat)>)
    ensures r.Some? ==>
      (&& IsAt(s, OpenTag, r.value.0) && IsAt(s, CloseTag, r.value.1)
       && r.value.0 + |OpenTag| <= r.value.1
       && (forall j: nat :: j < r.value.0 ==> !IsAt(s, OpenTag, j))
       && (forall j: nat :: r.value.0 + |OpenTag| <= j < r.value.1 ==> !IsAt(s, CloseTag, j)))
    ensures r.None? ==>
      forall i: nat, j: nat :: IsAt(s, OpenTag, i) && i + |OpenTag| <= j ==> !IsAt(s, CloseTag, j)
  {
    match IndexOf(s, OpenTag, 0)
    case None => None
    case Some(i) =>
      match IndexOf(s, CloseTag, i + |OpenTag|)
      case None =>
        assert forall i': nat, j: nat :: IsAt(s, OpenTag, i') && i' + |OpenTag| <= j ==> !IsAt(s, CloseTag, j) by {
          forall i': nat, j: nat | IsAt(s, OpenTag, i') && i' + |OpenTag| <= j
            ensures !IsAt(s, CloseTag, j)
          {
            assert i <= i';
          }
        }
        None
      case Some(j) => Some((i, j))
  }

  /** `drawingMatch ? drawingMatch[1] : undefined`: the text between the tags of the first block. */
  function ExtractDrawing(s: string): Option<string> {
    match FindDrawing(s)
    case None => None
    case Some((i, j)) => Some(s[i + |OpenTag|..j])
  }

  /** `replace(/<drawing>[\s\S]*?<\/drawing>/, '')`: only the first block, tags included, is cut out. */
  function RemoveFirstDrawing(s: string): (r: string)
    ensures FindDrawing(s).None? ==> r == s
    ensures |r| <= |s|
  {
    match FindDrawing(s)
    case None => s
    case Some((i, j)) => s[..i] + s[j + |CloseTag|..]
  }

  /** The reply's text: the response without its first drawing, trimmed, or the fallback when that is empty. */
  function ReplyText(response: string): (t: string)
    ensures t != []
    ensures t == DrawingFallback <== IsBlank(RemoveFirstDrawing(response))
    ensures !IsBlank(RemoveFirstDrawing(response)) ==> t == Trim(RemoveFirstDrawing(response))
  {
    var clean := Trim(RemoveFirstDrawing(response));
    if clean == [] then DrawingFallback else clean
  }

  /** The search settles on any opening and closing tag that have no earlier rival. */
  lemma FoundAt(s: string, i: nat, j: nat)
    requires IsAt(s, OpenTag, i) && IsAt(s, CloseTag, j) && i + |OpenTag| <= j
    requires forall k: nat :: k < i ==> !IsAt(s, OpenTag, k)
    requires forall k: nat :: i + |OpenTag| <= k < j ==> !IsAt(s, CloseTag, k)
    ensures FindDrawing(s) == Some((i, j))
  {
    var a := IndexOf(s, OpenTag, 0);
    assert a == Some(i);
    var b := IndexOf(s, CloseTag, i + |OpenTag|);
    assert b == Some(j);
  }

  /** No tag starts at a position holding something other than '<'. */
  lemma NotATag(s: string, pat: string, k: nat)
    requires |pat| > 0 && pat[0] == '<' && k < |s| && s[k] != '<'
    ensures !IsAt(s, pat, k)
  {
  }

  /** Where the pieces of a response laid out as text, block and text sit. */
  lemma Layout(before: string, drawing: string, after: string)
    ensures var s := before + OpenTag + drawing + CloseTag + after;
      var i, j := |before|, |before| + |OpenTag| + |drawing|;
      && IsAt(s, OpenTag, i) && IsAt(s, CloseTag, j)
      && s[..i] == before && s[i + |OpenTag|..j] == drawing && s[j + |CloseTag|..] == after
      && (forall k :: 0 <= k < i ==> s[k] == before[k])
      && (forall k :: i + |OpenTag| <= k < j ==> s[k] == drawing[k - i - |OpenTag|])
  {
    var s := before + OpenTag + drawing + CloseTag + after;
    var i, j := |before|, |before| + |OpenTag| + |drawing|;
    assert s[i..i + |OpenTag|] == OpenTag;
    assert s[j..j + |CloseTag|] == CloseTag;
  }

  /** Each tag holds '<' only as its first character. */
  lemma OneBracket()
    ensures forall m :: 0 < m < |OpenTag| ==> OpenTag[m] != '<'
    ensures forall m :: 0 < m < |CloseTag| ==> CloseTag[m] != '<'
  {
  }

  /** A tag whose only '<' is its first character cannot start before a '<' and run over it. */
  lemma NotAcross(s: string, pat: string, k: nat, b: nat)
    requires forall m :: 0 < m < |pat| ==> pat[m] != '<'
    requires k < b < k + |pat| && b < |s| && s[b] == '<'
    ensures !IsAt(s, pat, k)
  {
    if k + |pat| <= |s| {
      assert s[k..k + |pat|][b - k] == '<';
    }
  }

  /** An occurrence lying wholly inside a stretch of `s` that copies `t` is an occurrence in `t`. */
  lemma Within(s: string, t: string, start: nat, pat: string, k: nat)
    requires start + |t| <= |s| && s[start..start + |t|] == t
    requires start <= k && k + |pat| <= start + |t|
    ensures IsAt(s, pat, k) ==> IsAt(t, pat, k - start)
  {
    var here, there := s[k..k + |pat|], t[k - start..k - start + |pat|];
    forall m | 0 <= m < |pat| ensures here[m] == there[m] {
      assert s[start..start + |t|][k - start + m] == s[k + m];
    }
    assert here == there;
  }

  /**
   * A response laid out as text, one drawing block and more text, where the
   * leading text holds no opening tag and the drawing no closing tag, splits
   * back into its pieces: the drawing is the block's content and the cleaned
   * text is the two surrounding texts joined.
   */
  lemma DrawingRoundTrip(before: string, drawing: string, after: string)
    requires !Contains(before, OpenTag) && !Contains(drawing, CloseTag)
    ensures var s := before + OpenTag + drawing + CloseTag + after;
      && ExtractDrawing(s) == Some(drawing)
      && RemoveFirstDrawing(s) == before + after
  {
    var s := before + OpenTag + drawing + CloseTag + after;
    var i, j := |before|, |before| + |OpenTag| + |drawing|;
    Layout(before, drawing, after);
    OneBracket();
    assert s[i] == OpenTag[0] && s[j] == CloseTag[0] by {
      assert s[i..i + |OpenTag|][0] == s[i];
      assert s[j..j + |CloseTag|][0] == s[j];
    }
    forall k: nat | k < i ensures !IsAt(s, OpenTag, k) {
      if k + |OpenTag| <= i {
        Within(s, before, 0, OpenTag, k);
      } else {
        NotAcross(s, OpenTag, k, i);
      }
    }
    forall k: nat | i + |OpenTag| <= k < j ensures !IsAt(s, CloseTag, k) {
      if k + |CloseTag| <= j {
        Within(s, drawing, i + |OpenTag|, CloseTag, k);
      } else {
        NotAcross(s, CloseTag, k, j);
      }
    }
    FoundAt(s, i, j);
  }

  /** A response with no opening tag keeps its whole text, trimmed, and carries no drawing. */
  lemma NoDrawingKeepsText(response: string)
    requires !Contains(response, OpenTag)
    ensures ExtractDrawing(response).None?
    ensures RemoveFirstDrawing(response) == response
  {
    ContainsIffFound(response, OpenTag);
  }

  // ---------------------------------------------------------------- screen

  /** The request `handleSend` makes of the answer service. */
  datatype ServiceCall = ServiceCall(prompt: string, history: seq<Message>)

  class ChatScreen {
    var messages: seq<Message>
    var input: string
    var isLoading: bool

    /** The chat opens with the greeting only. */
    constructor (userName: string)
      ensures messages == [Greeting(userName)] && input == "" && !isLoading
    {
      messages, input, isLoading := [Greeting(userName)], "", false;
    }

    method Type(text: string)
      modifies this
      ensures input == text && messages == old(messages) && isLoading == old(isLoading)
    {
      input := text;
    }

    /**
     * The first half of `handleSend`. A blank input, or a send while a reply
     * is awaited, changes nothing and calls nothing. Otherwise the input, as
     * typed, is appended as the user's message, the box is cleared, loading
     * starts, and the service is asked with the messages from before it.
     */
    method Send() returns (call: Option<ServiceCall>)
      modifies this
      ensures IsBlank(old(input)) || old(isLoading) ==>
        call.None? && messages == old(messages) && input == old(input) && isLoading == old(isLoading)
      ensures !IsBlank(old(input)) && !old(isLoading) ==>
        (&& call == Some(ServiceCall(old(input), old(messages)))
         && messages == old(messages) + [Message(User, old(input), None)]
         && input == "" && isLoading)
    {
      if Trim(input) == [] || isLoading {
        return None;
      }
      call := Some(ServiceCall(input, messages));
      messages := messages + [Message(User, input, None)];
      input := "";
      isLoading := true;
    }

    /** The second half: the service's response arrives and is appended as one reply; loading ends. */
    method Receive(response: string)
      requires isLoading
      modifies this
      ensures messages == old(messages) + [Message(Model, ReplyText(response), ExtractDrawing(response))]
      ensures !isLoading && input == old(input)
    {
      messages := messages + [Message(Model, ReplyText(response), ExtractDrawing(response))];
      isLoading := false;
    }
  }
}
