/**
 * The pure text handling of the relay: splitting an inbound websocket frame
 * `author|content`, rendering the frame every client receives, and the body
 * of a push notification.
 */
module Frames {
  import opened Wrappers

  /** The character that separates author from content in an inbound frame. */
  const Separator: char := '|'

  /** How many characters of the content a push notification shows. */
  const PreviewLength: nat := 80

  /** Appended to the preview when the content was cut. */
  const Ellipsis: string := "..."

  /** A chat message: who wrote it and what they wrote. */
  datatype Message = Message(author: string, content: string)

  /** Position of the first separator in `s`, if any. */
  function FirstSeparator(s: string): (r: Option<nat>)
    ensures r.None? <==> Separator !in s
    ensures r.Some? ==> r.value < |s| && s[r.value] == Separator && Separator !in s[..r.value]
  {
    if s == [] then None
    else if s[0] == Separator then Some(0)
    else
      match FirstSeparator(s[1..])
      case None => None
      case Some(k) =>
        assert s[..k + 1] == [s[0]] + s[1..][..k];
        Some(k + 1)
  }

  /**
   * An inbound frame: ignored when it holds no separator, otherwise split at
   * the first separator (`data.split("|", 1)`), so that the author never
   * contains one and the two halves put back together give the frame.
   */
  function ParseFrame(data: string): (r: Option<Message>)
    ensures r.None? <==> Separator !in data
    ensures r.Some? ==> Separator !in r.value.author
    ensures r.Some? ==> r.value.author + [Separator] + r.value.content == data
  {
    match FirstSeparator(data)
    case None => None
    case Some(k) =>
      assert data == data[..k] + [Separator] + data[k + 1..];
      Some(Message(data[..k], data[k + 1..]))
  }

  /** Joining an author free of separators with any content parses back to the same message. */
  lemma ParseFrameInverse(m: Message)
    requires Separator !in m.author
    ensures ParseFrame(m.author + [Separator] + m.content) == Some(m)
  {
    var data := m.author + [Separator] + m.content;
    var p := ParseFrame(data).value;
    assert data[|m.author|] == Separator;
    assert forall i :: 0 <= i < |m.author| ==> data[i] == m.author[i];
    assert forall i :: 0 <= i < |p.author| ==> data[i] == p.author[i];
    if |p.author| != |m.author| {
      assert false;
    }
    assert p.author == data[..|m.author|] == m.author;
    assert p.content == data[|m.author| + 1..] == m.content;
  }

  /** The frame sent to clients, live or as history: `<b>author</b>: content`, with the content sent as is (no escaping). */
  function RenderFrame(m: Message): (r: string)
    ensures |r| == |m.author| + |m.content| + 9
    ensures r[9 + |m.author|..] == m.content
  {
    "<b>" + m.author + "</b>: " + m.content
  }

  /** The rendered frame opens with the bold author and ends with the content, untouched. */
  lemma RenderFrameShape(m: Message)
    ensures var f := RenderFrame(m);
      |f| == |m.author| + |m.content| + 9 &&
      f[..3] == "<b>" &&
      f[3..3 + |m.author|] == m.author &&
      f[3 + |m.author|..9 + |m.author|] == "</b>: " &&
      f[9 + |m.author|..] == m.content
  {
  }

  /**
   * The body of a push notification: the author, a colon, and the first
   * `PreviewLength` characters of the content, followed by `Ellipsis`
   * exactly when the content was longer than that.
   */
  function NotificationBody(m: Message): (r: string)
    ensures |m.content| <= PreviewLength ==> r == m.author + ": " + m.content
    ensures |m.content| > PreviewLength ==> r == m.author + ": " + m.content[..PreviewLength] + Ellipsis
  {
    var preview := if |m.content| <= PreviewLength then m.content else m.content[..PreviewLength];
    m.author + ": " + preview + (if |m.content| > PreviewLength then Ellipsis else "")
  }

  /**
   * The body begins with `author: ` and a prefix of the content, carries the
   * marker exactly when the content was cut, and is never longer than the
   * author plus two plus the preview plus the marker.
   */
  lemma NotificationBodyBounds(m: Message)
    ensures var r := NotificationBody(m);
      var head := m.author + ": ";
      var shown := if |m.content| <= PreviewLength then |m.content| else PreviewLength;
      |r| <= |m.author| + 2 + PreviewLength + |Ellipsis| &&
      r[..|head|] == head &&
      r[|head|..|head| + shown] == m.content[..shown] &&
      (|m.content| > PreviewLength <==> |r| == |head| + shown + |Ellipsis|)
  {
  }
}
