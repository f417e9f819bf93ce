/** The rules of a post card (components/PostCard.tsx): the derived flags the
    card renders from its props, the caption badge, and the card's own local
    state (expanded body, comment input, gift and spotlight dialogs). */
module PostCard {
  import opened Types
  import JsString
  import JsArray
  import Modals

  /** `currentUserId && post.userId === currentUserId`: an absent or empty id is
      falsy, so no one owns a post then. */
  predicate IsOwnPost(currentUserId: Option<string>, post: Post) {
    currentUserId.Some? && currentUserId.value != "" && post.userId == currentUserId.value
  }

  /** `post.isPromoted && post.promotedUntil && promotedUntil > now`, with dates
      as milliseconds. */
  predicate IsCurrentlyPromoted(post: Post, now: int) {
    post.isPromoted && post.promotedUntil.Some? && post.promotedUntil.value > now
  }

  /** A promotion shown at some moment was shown at every earlier moment while
      the flag and the end date stay the same: it only ever runs out. */
  lemma PromotionOnlyExpires(post: Post, earlier: int, later: int)
    requires earlier <= later && IsCurrentlyPromoted(post, later)
    ensures IsCurrentlyPromoted(post, earlier)
  {
  }

  /** The caption badge: absent for an empty caption, otherwise a single `#`
      followed by the caption with every `#` removed and every other character
      kept in order. */
  function CaptionBadge(caption: string): (r: Option<string>)
    ensures r.None? <==> caption == ""
    ensures r.Some? ==> |r.value| >= 1 && r.value[0] == '#' && '#' !in r.value[1..]
    ensures r.Some? ==> forall c :: c != '#' ==> multiset(r.value[1..])[c] == multiset(caption)[c]
  {
    if caption == "" then None
    else
      var body := JsArray.Filter(caption, (c: char) => c != '#');
      assert ("#" + body)[1..] == body;
      Some("#" + body)
  }

  /** The badge of a single character: `#` alone for a `#`, otherwise `#` and
      that character. */
  lemma CaptionBadgeOfChar(ch: char)
    ensures CaptionBadge([ch]) == Some(if ch == '#' then "#" else ['#', ch])
  {
    var keep := (c: char) => c != '#';
    assert [ch][1..] == [];
    var body := JsArray.Filter([ch], keep);
    assert body == (if ch == '#' then [] else [ch]) + JsArray.Filter([], keep);
    assert CaptionBadge([ch]) == Some("#" + body);
    if ch == '#' {
      assert body == [];
      assert "#" + body == "#";
    } else {
      assert body == [ch];
      assert "#" + body == ['#', ch];
    }
  }

  /** The badge of a caption split in two is the badge of the first part
      followed by the badge body of the second: the kept characters stay in
      their order. With `CaptionBadgeOfChar` this fixes the badge of every
      caption. */
  lemma CaptionBadgeConcat(a: string, b: string)
    requires a != "" && b != ""
    ensures CaptionBadge(a + b) == Some(CaptionBadge(a).value + CaptionBadge(b).value[1..])
  {
    var keep := (c: char) => c != '#';
    var fa := JsArray.Filter(a, keep);
    var fb := JsArray.Filter(b, keep);
    JsArray.FilterOfPrefix(a, b, keep);
    assert a + b != "";
    assert CaptionBadge(a + b) == Some("#" + (fa + fb));
    assert CaptionBadge(a) == Some("#" + fa);
    assert CaptionBadge(b) == Some("#" + fb);
    assert ("#" + fb)[1..] == fb;
    assert "#" + (fa + fb) == ("#" + fa) + fb;
  }

  /** A caption without `#` is shown as it is, behind one `#`. */
  lemma CaptionBadgeOfPlainCaption(caption: string)
    requires caption != "" && '#' !in caption
    ensures CaptionBadge(caption) == Some("#" + caption)
  {
    JsArray.FilterKeepsAll(caption, (c: char) => c != '#');
  }

  /** The local state of one card. `viewsFired` counts the `onView` calls this
      instance has made; it is not part of the source's state. */
  class Card {
    var isExpanded: bool
    var commentText: string
    var isGiftOpen: bool
    var isPromoteOpen: bool
    ghost var viewsFired: nat

    /** At most one view per card, and none before the body is expanded. */
    ghost predicate Valid()
      reads this
    {
      viewsFired <= 1 && (!isExpanded ==> viewsFired == 0)
    }

    constructor ()
      ensures Valid()
      ensures !isExpanded && commentText == "" && !isGiftOpen && !isPromoteOpen && viewsFired == 0
    {
      isExpanded := false;
      commentText := "";
      isGiftOpen := false;
      isPromoteOpen := false;
      viewsFired := 0;
    }

    /** The expand control is rendered only while the body is collapsed. */
    predicate ExpandShown()
      reads this
    {
      !isExpanded
    }

    /** `handleExpand`: expands the body and reports a view of the post when the
        card was given `onView`. Only the rendered control calls it, and nothing
        collapses the body again, so a card fires at most one view. */
    method Expand(post: Post, hasOnView: bool) returns (view: Option<string>)
      requires Valid() && ExpandShown()
      modifies this`isExpanded, this`viewsFired
      ensures Valid() && isExpanded && !ExpandShown()
      ensures view == if hasOnView then Some(post.id) else None
      ensures viewsFired == old(viewsFired) + (if hasOnView then 1 else 0)
    {
      isExpanded := true;
      if hasOnView {
        view := Some(post.id);
        viewsFired := viewsFired + 1;
      } else {
        view := None;
      }
    }

    /** The input's `onChange`. */
    method TypeComment(text: string)
      modifies this`commentText
      ensures commentText == text
    {
      commentText := text;
    }

    /** The send button is disabled unless the trimmed text is non-empty. */
    predicate SendEnabled()
      reads this
    {
      !JsString.Blank(commentText)
    }

    /** `handleSendComment`: the text as typed (not trimmed) is sent and the input
        cleared exactly when it does not trim to empty; otherwise nothing happens. */
    method SendComment(post: Post) returns (sent: Option<(string, string)>)
      modifies this`commentText
      ensures sent.Some? <==> old(SendEnabled())
      ensures sent.Some? ==> sent.value == (post.id, old(commentText)) && commentText == ""
      ensures sent.None? ==> commentText == old(commentText)
      ensures sent.Some? ==> JsString.Visible(sent.value.1)
    {
      if !JsString.Blank(commentText) {
        JsString.BlankIff(commentText);
        sent := Some((post.id, commentText));
        commentText := "";
      } else {
        sent := None;
      }
    }

    /** The gift button: `!isOwnPost && setIsGiftOpen(true)`. */
    method ClickGift(currentUserId: Option<string>, post: Post)
      modifies this`isGiftOpen
      ensures isGiftOpen == (old(isGiftOpen) || !IsOwnPost(currentUserId, post))
      ensures IsOwnPost(currentUserId, post) ==> isGiftOpen == old(isGiftOpen)
    {
      if !IsOwnPost(currentUserId, post) {
        isGiftOpen := true;
      }
    }

    /** The spotlight button shown on one's own post. */
    method ClickPromote()
      modifies this`isPromoteOpen
      ensures isPromoteOpen
    {
      isPromoteOpen := true;
    }

    /** The spotlight dialog's confirm button followed by the card's `onConfirm`:
        when the selected plan is affordable, only the post id is passed on (the
        plan's duration and cost are dropped, so nothing is charged) and the
        dialog closes; otherwise the button is disabled. */
    method ConfirmPromote(post: Post, selected: Modals.Plan, balance: real) returns (request: Option<string>)
      modifies this`isPromoteOpen
      ensures request.Some? <==> Modals.ConfirmPlan(selected, balance).Some?
      ensures request.Some? ==> request.value == post.id && !isPromoteOpen
      ensures request.None? ==> isPromoteOpen == old(isPromoteOpen)
    {
      if Modals.ConfirmPlan(selected, balance).Some? {
        request := Some(post.id);
        isPromoteOpen := false;
      } else {
        request := None;
      }
    }
  }
}
