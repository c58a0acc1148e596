/** Rendering a message's attachments as inline Markdown images
    (`includeImages`, index.js:222-230). */
module Attachments {
  import opened JsStrings

  /** A file attached to a chat message, already hosted by the chat platform. */
  datatype Attachment = Attachment(name: string, url: string)

  /** The Markdown image reference of one attachment: `![name](url)`. */
  function Markup(a: Attachment): (m: string)
    ensures |m| == |a.name| + |a.url| + 5
    ensures StartsWith(m, "![") && m[|m| - 1] == ')'
    ensures m[2..2 + |a.name|] == a.name && m[2 + |a.name|..4 + |a.name|] == "]("
    ensures m[4 + |a.name|..|m| - 1] == a.url
  {
    "![" + a.name + "](" + a.url + ")"
  }

  /** The markup of all attachments, in order, with no separator. */
  function Render(atts: seq<Attachment>): (r: string)
    ensures atts == [] <==> r == ""
    ensures atts != [] ==> StartsWith(r, "![")
    ensures |r| >= 5 * |atts|
  {
    if |atts| == 0 then "" else Markup(atts[0]) + Render(atts[1..])
  }

  /** Rendering never yields the literal text "undefined", so the footer's
      check for it only ever sees the empty rendering of no attachments. */
  lemma RenderNeverUndefinedText(atts: seq<Attachment>)
    ensures Render(atts) != "undefined"
  {
    if atts != [] {
      assert Render(atts)[0] == '!';
    }
  }

  /** Rendering is a homomorphism from concatenation of lists to
      concatenation of strings. */
  lemma {:induction false} RenderConcat(s: seq<Attachment>, t: seq<Attachment>)
    ensures Render(s + t) == Render(s) + Render(t)
    decreases |s|
  {
    if s == [] {
      assert s + t == t;
    } else {
      assert (s + t)[1..] == s[1..] + t;
      RenderConcat(s[1..], t);
    }
  }

  /** Appending one attachment extends the rendering by exactly its markup. */
  lemma {:induction false} RenderAppend(s: seq<Attachment>, a: Attachment)
    ensures Render(s + [a]) == Render(s) + Markup(a)
  {
    RenderConcat(s, [a]);
    assert Render([a]) == Markup(a) + Render([]);
  }

  /** The i-th attachment's markup sits between that of the earlier and of the
      later attachments: order is kept. */
  lemma {:induction false} RenderAt(atts: seq<Attachment>, i: nat)
    requires i < |atts|
    ensures Render(atts) == Render(atts[..i]) + Markup(atts[i]) + Render(atts[i + 1..])
  {
    var pre, post := atts[..i], atts[i + 1..];
    assert atts == (pre + [atts[i]]) + post;
    RenderConcat(pre + [atts[i]], post);
    RenderAppend(pre, atts[i]);
  }

  /** `includeImages`: appends each attachment's markup to an accumulator in
      the order of the attachment collection. */
  method IncludeImages(atts: seq<Attachment>) returns (attachments: string)
    ensures attachments == Render(atts)
  {
    attachments := "";
    var i := 0;
    while i < |atts|
      invariant 0 <= i <= |atts|
      invariant attachments == Render(atts[..i])
    {
      RenderAppend(atts[..i], atts[i]);
      assert atts[..i + 1] == atts[..i] + [atts[i]];
      attachments := attachments + Markup(atts[i]);
      i := i + 1;
    }
    assert atts[..i] == atts;
  }

  /** A worked example: two images, rendered in order with no separator. */
  lemma TwoImagesExample()
    ensures Render([Attachment("a.png", "u1"), Attachment("b.png", "u2")])
         == "![a.png](u1)![b.png](u2)"
  {
  }
}
