/** The post editor (components/RichEditor.tsx): the publish validation and the
    writing-assistant guard around the editor's title, caption and loading flag.
    The editor body is passed in: its HTML for publishing, its text for the
    assistant. The assistant's reply is a parameter. */
module RichEditor {
  import opened Types
  import JsString

  /** The minimum length of text the assistant is asked about. */
  const AiMinLength: nat := 20

  /** `title.trim() && content.replace(/<[^>]*>/g, '').trim()` */
  predicate CanPublish(title: string, content: string) {
    !JsString.Blank(title) && !JsString.Blank(JsString.ReplaceTags(content, ""))
  }

  /** Publishing needs a title with a visible character, and content with a
      visible character once its markup is removed. */
  lemma CanPublishIff(title: string, content: string)
    ensures CanPublish(title, content) <==>
              JsString.Visible(title) && JsString.Visible(JsString.ReplaceTags(content, ""))
  {
    JsString.BlankIff(title);
    JsString.BlankIff(JsString.ReplaceTags(content, ""));
  }

  /** Plain text with a visible character is publishable under a real title. */
  lemma PlainTextPublishable(title: string, content: string, i: int)
    requires !JsString.Blank(title) && '<' !in content
    requires 0 <= i < |content| && !JsString.IsSpace(content[i])
    ensures CanPublish(title, content)
  {
    JsString.PlainTextUnchanged(content, "");
    JsString.BlankIff(content);
  }

  /** An editor holding only an empty paragraph is refused, whatever the title. */
  lemma EmptyParagraphRefused(title: string)
    ensures !CanPublish(title, "<p><br></p>")
  {
    var s := "<p><br></p>";
    assert s[3..] == "<br></p>" && s[3..][4..] == "</p>" && s[3..][4..][4..] == "";
    CloseAtThree("<br></p>");
    CloseAtThree("</p>");
    assert JsString.IndexOf(s, '>') == 2;
    assert JsString.ReplaceTags(s, "") == "";
  }

  /** A tag of two characters between its brackets closes at offset 3. */
  lemma CloseAtThree(t: string)
    requires |t| >= 4 && t[0] == '<' && t[1] != '>' && t[2] != '>' && t[3] == '>'
    ensures JsString.IndexOf(t, '>') == 3
  {
    assert t[1..][1..][1..][0] == '>';
    assert JsString.IndexOf(t[1..][1..][1..], '>') == 0;
  }

  /** `!content.trim() || content.length < 20` refuses the assistant. */
  predicate AiAllowed(content: string) {
    !JsString.Blank(content) && |content| >= AiMinLength
  }

  /** The assistant is asked only about text of at least 20 characters with a
      visible one among them. */
  lemma AiAllowedIff(content: string)
    ensures AiAllowed(content) <==> |content| >= AiMinLength && JsString.Visible(content)
  {
    JsString.BlankIff(content);
  }

  datatype Publication = Publication(title: string, content: string, caption: string)

  class Editor {
    var title: string
    var caption: string
    var isAiLoading: bool

    constructor ()
      ensures title == "" && caption == "" && !isAiLoading
    {
      title := "";
      caption := "";
      isAiLoading := false;
    }

    method SetTitle(t: string)
      modifies this`title
      ensures title == t
    {
      title := t;
    }

    method SetCaption(c: string)
      modifies this`caption
      ensures caption == c
    {
      caption := c;
    }

    /** `handlePublish`: refused unless the title and the de-tagged content are
        non-blank; then the title, the raw HTML content and the caption go to
        `onPublish` as they are. */
    method Publish(content: string) returns (r: Option<Publication>)
      ensures r.Some? <==> CanPublish(title, content)
      ensures r.Some? ==> r.value == Publication(title, content, caption)
    {
      if JsString.Blank(title) || JsString.Blank(JsString.ReplaceTags(content, "")) {
        r := None;
      } else {
        r := Some(Publication(title, content, caption));
      }
    }

    /** The first half of `handleAiAssist`, up to the request: a refused text
        changes nothing; otherwise the loading flag is raised. The button is
        disabled while loading. */
    method BeginAiAssist(content: string) returns (started: bool)
      requires !isAiLoading
      modifies this`isAiLoading
      ensures started <==> AiAllowed(content)
      ensures isAiLoading == started
    {
      if JsString.Blank(content) || |content| < AiMinLength {
        started := false;
      } else {
        isAiLoading := true;
        started := true;
      }
    }

    /** The second half, after the reply: on success title and caption are both
        replaced; on failure they stay; the loading flag is lowered either way.
        The failure branch is the handler's `catch`. The two generators in
        services/geminiService.ts catch their own errors and return fallback
        text, so in the program a reply always arrives. */
    method FinishAiAssist(reply: Option<(string, string)>)
      requires isAiLoading
      modifies this`title, this`caption, this`isAiLoading
      ensures !isAiLoading
      ensures reply.Some? ==> title == reply.value.0 && caption == reply.value.1
      ensures reply.None? ==> title == old(title) && caption == old(caption)
    {
      if reply.Some? {
        title := reply.value.0;
        caption := reply.value.1;
      }
      isAiLoading := false;
    }
  }
}
