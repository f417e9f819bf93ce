/** The state the application shell keeps (App.tsx:21-37) and its handlers.
    Every handler overwrites some fields with the value the matching `App`
    function computes from the old ones; after a change to the account table
    the session is brought back in step by `App.Synced` (the effect at
    App.tsx:51-58). Ids and the current time are parameters. */
module AppState {
  import opened Types
  import App
  import Modals
  import AdminDashboard

  class Store {
    var user: Option<User>
    var allUsers: map<string, User>
    var posts: seq<Post>
    var topUpRequests: seq<TopUpRequest>
    var withdrawRequests: seq<WithdrawRequest>
    var reports: seq<ReportRecord>
    var signupRequests: seq<SignUpRequest>
    var ads: seq<Advertisement>
    var viewRate: real
    var following: set<string>
    var savedPosts: set<string>
    var isWriting: bool
    var isTopUpOpen: bool
    var isWithdrawOpen: bool

    /** The initial state: nobody signed in, the seed tables as given, nothing open. */
    constructor (users: map<string, User>, posts0: seq<Post>, topUps: seq<TopUpRequest>, reports0: seq<ReportRecord>,
                 signups: seq<SignUpRequest>, ads0: seq<Advertisement>, rate: real, following0: set<string>)
      ensures user == None && allUsers == users && posts == posts0 && topUpRequests == topUps
      ensures withdrawRequests == [] && reports == reports0 && signupRequests == signups && ads == ads0
      ensures viewRate == rate && following == following0 && savedPosts == {}
      ensures !isWriting && !isTopUpOpen && !isWithdrawOpen
    {
      user := None;
      allUsers := users;
      posts := posts0;
      topUpRequests := topUps;
      withdrawRequests := [];
      reports := reports0;
      signupRequests := signups;
      ads := ads0;
      viewRate := rate;
      following := following0;
      savedPosts := {};
      isWriting := false;
      isTopUpOpen := false;
      isWithdrawOpen := false;
    }

    /** `totalBalance` */
    function TotalBalance(): real
      reads this
    {
      App.TotalBalance(user)
    }

    // ------------------------------------------------------------ session

    /** `handleLogin`, with `order` the enumeration order of the accounts and
        `admin` the seeded administrator record; it reports whether a session
        began. A failed attempt leaves the session as it was. */
    method Login(order: seq<string>, username: string, password: string, admin: User) returns (ok: bool)
      requires AdminDashboard.Enumerates(allUsers, order)
      modifies this`user
      ensures ok == App.Login(AdminDashboard.Values(allUsers, order), username, password, admin).Some?
      ensures ok ==> user == App.Login(AdminDashboard.Values(allUsers, order), username, password, admin)
      ensures !ok ==> user == old(user)
    {
      var r := App.Login(AdminDashboard.Values(allUsers, order), username, password, admin);
      ok := r.Some?;
      if ok {
        user := r;
      }
    }

    /** The header's logout button. */
    method Logout()
      modifies this`user
      ensures user == None
    {
      user := None;
    }

    // ------------------------------------------------------------ sign-up and admin queues

    /** `handleSignUp` */
    method SignUp(form: App.SignupForm, id: string, now: int)
      modifies this`signupRequests
      ensures signupRequests == App.SignUp(old(signupRequests), form, id, now)
    {
      signupRequests := App.SignUp(signupRequests, form, id, now);
    }

    /** `handleApproveUser` */
    method ApproveUser(id: string, newId: string)
      modifies this`allUsers, this`signupRequests, this`user
      ensures (allUsers, signupRequests) == App.ApproveUser(old(allUsers), old(signupRequests), id, newId)
      ensures user == App.Synced(old(user), allUsers)
    {
      var r := App.ApproveUser(allUsers, signupRequests, id, newId);
      allUsers, signupRequests := r.0, r.1;
      user := App.Synced(user, allUsers);
    }

    /** `onRejectUser` */
    method RejectUser(id: string)
      modifies this`signupRequests
      ensures signupRequests == App.RemoveSignup(old(signupRequests), id)
    {
      signupRequests := App.RemoveSignup(signupRequests, id);
    }

    /** `handleUpdateViewRate` */
    method UpdateViewRate(rate: real)
      modifies this`viewRate
      ensures viewRate == rate
    {
      viewRate := rate;
    }

    /** `handleApproveTopUp` */
    method ApproveTopUp(id: string)
      modifies this`allUsers, this`topUpRequests, this`user
      ensures (allUsers, topUpRequests) == App.ApproveTopUp(old(allUsers), old(topUpRequests), id)
      ensures user == App.Synced(old(user), allUsers)
    {
      var r := App.ApproveTopUp(allUsers, topUpRequests, id);
      allUsers, topUpRequests := r.0, r.1;
      user := App.Synced(user, allUsers);
    }

    /** `onRejectTopUp` */
    method RejectTopUp(id: string)
      modifies this`topUpRequests
      ensures topUpRequests == App.RemoveTopUp(old(topUpRequests), id)
    {
      topUpRequests := App.RemoveTopUp(topUpRequests, id);
    }

    /** `handleApproveWithdraw`: the request leaves the queue and no balance moves. */
    method ApproveWithdraw(id: string)
      modifies this`withdrawRequests
      ensures withdrawRequests == App.RemoveWithdraw(old(withdrawRequests), id)
    {
      withdrawRequests := App.RemoveWithdraw(withdrawRequests, id);
    }

    /** `onRejectWithdraw`: the same change as approving. */
    method RejectWithdraw(id: string)
      modifies this`withdrawRequests
      ensures withdrawRequests == App.RemoveWithdraw(old(withdrawRequests), id)
    {
      withdrawRequests := App.RemoveWithdraw(withdrawRequests, id);
    }

    /** `handleApprovePromo` */
    method ApprovePromo(postId: string, now: int)
      modifies this`posts
      ensures posts == App.ApprovePromo(old(posts), postId, now)
    {
      posts := App.ApprovePromo(posts, postId, now);
    }

    /** `handleRejectPromo` */
    method RejectPromo(postId: string)
      modifies this`posts
      ensures posts == App.RejectPromo(old(posts), postId)
    {
      posts := App.RejectPromo(posts, postId);
    }

    /** `onDismissReport` */
    method DismissReport(reportId: string)
      modifies this`reports
      ensures reports == App.RemoveReport(old(reports), reportId)
    {
      reports := App.RemoveReport(reports, reportId);
    }

    /** `handleDeletePost`: the post and the report that flagged it both go. */
    method DeletePost(postId: string, reportId: string)
      modifies this`posts, this`reports
      ensures posts == App.RemovePost(old(posts), postId)
      ensures reports == App.RemoveReport(old(reports), reportId)
    {
      posts := App.RemovePost(posts, postId);
      reports := App.RemoveReport(reports, reportId);
    }

    /** `handleSaveAd` */
    method SaveAd(ad: Advertisement)
      modifies this`ads
      ensures ads == App.SaveAd(old(ads), ad)
    {
      ads := App.SaveAd(ads, ad);
    }

    /** `handleToggleAd` */
    method ToggleAd(id: string)
      modifies this`ads
      ensures ads == App.ToggleAd(old(ads), id)
    {
      ads := App.ToggleAd(ads, id);
    }

    /** `onDeleteAd` */
    method DeleteAd(id: string)
      modifies this`ads
      ensures ads == App.RemoveAd(old(ads), id)
    {
      ads := App.RemoveAd(ads, id);
    }

    /** `activeTopAd` */
    function ActiveTopAd(): Option<Advertisement>
      reads this
    {
      App.ActiveAd(ads, Top)
    }

    /** `activeBottomAd` */
    function ActiveBottomAd(): Option<Advertisement>
      reads this
    {
      App.ActiveAd(ads, Bottom)
    }

    // ------------------------------------------------------------ feed

    /** The editor's `onPublish`: the post is prepended and the editor closes.
        The source reads `user!.id`, so someone must be signed in. */
    method Publish(id: string, title: string, content: string, caption: string, now: int)
      requires user.Some?
      modifies this`posts, this`isWriting
      ensures posts == App.Publish(old(posts), App.NewPost(id, user.value, title, content, caption, now))
      ensures !isWriting
    {
      posts := App.Publish(posts, App.NewPost(id, user.value, title, content, caption, now));
      isWriting := false;
    }

    /** `onFollowToggle` */
    method ToggleFollow(userId: string)
      modifies this`following
      ensures following == App.ToggleMember(old(following), userId)
    {
      following := App.ToggleMember(following, userId);
    }

    /** `onSaveToggle` */
    method ToggleSaved(postId: string)
      modifies this`savedPosts
      ensures savedPosts == App.ToggleMember(old(savedPosts), postId)
    {
      savedPosts := App.ToggleMember(savedPosts, postId);
    }

    /** `onLike` */
    method ToggleLike(postId: string)
      modifies this`posts
      ensures posts == App.ToggleLike(old(posts), postId)
    {
      posts := App.ToggleLike(posts, postId);
    }

    /** `onAddComment`: reads `user!`, so someone must be signed in. */
    method AddComment(postId: string, text: string, commentId: string, now: int)
      requires user.Some?
      modifies this`posts
      ensures posts == App.AddComment(old(posts), postId, App.NewComment(commentId, user.value, text, now))
    {
      posts := App.AddComment(posts, postId, App.NewComment(commentId, user.value, text, now));
    }

    /** `onPromoteRequest` */
    method PromoteRequest(postId: string)
      modifies this`posts
      ensures posts == App.PromoteRequest(old(posts), postId)
    {
      posts := App.PromoteRequest(posts, postId);
    }

    /** `handleIncrementView`: one more view on the post, and for each matching
        post the queued credit to its author. */
    method IncrementView(postId: string)
      modifies this`posts, this`allUsers, this`user
      ensures posts == App.ViewPosts(old(posts), postId)
      ensures allUsers == App.ViewCredits(old(allUsers), old(posts), postId,
                                          if old(user).Some? then Some(old(user).value.id) else None, viewRate)
      ensures user == App.Synced(old(user), allUsers)
    {
      var viewer := if user.Some? then Some(user.value.id) else None;
      allUsers := App.ViewCredits(allUsers, posts, postId, viewer, viewRate);
      posts := App.ViewPosts(posts, postId);
      user := App.Synced(user, allUsers);
    }

    /** `handleGift`. A balance below the price opens the top-up dialog; no
        session or no such post changes nothing; a session whose account is not
        in the table makes the source throw, which changes nothing either;
        otherwise the balances and the post's gift statistics are updated. The
        balances move by the corrected `App.GiftTransfer`, which differs from the
        source only for a gift to one's own post. */
    method SendGift(postId: string, gift: Modals.GiftItem) returns (outcome: App.GiftOutcome)
      modifies this`allUsers, this`posts, this`user, this`isTopUpOpen
      ensures outcome == App.GiftCheck(old(user), old(allUsers), old(posts), postId, gift.price)
      ensures isTopUpOpen == (old(isTopUpOpen) || outcome == App.OpenTopUp)
      ensures outcome != App.Sent ==> allUsers == old(allUsers) && posts == old(posts) && user == old(user)
      ensures outcome == App.Sent ==>
                && allUsers == App.GiftTransfer(old(allUsers), old(user).value.id,
                                                App.FindPost(old(posts), postId).value.userId, gift.price)
                && posts == App.GiftPosts(old(posts), postId, gift)
                && user == App.Synced(old(user), allUsers)
    {
      outcome := App.GiftCheck(user, allUsers, posts, postId, gift.price);
      if outcome == App.OpenTopUp {
        isTopUpOpen := true;
      } else if outcome == App.Sent {
        var author := App.FindPost(posts, postId).value.userId;
        allUsers := App.GiftTransfer(allUsers, user.value.id, author, gift.price);
        posts := App.GiftPosts(posts, postId, gift);
        user := App.Synced(user, allUsers);
      }
    }

    // ------------------------------------------------------------ dialogs

    /** A card's `onTopUpRequest`. */
    method OpenTopUp()
      modifies this`isTopUpOpen
      ensures isTopUpOpen
    {
      isTopUpOpen := true;
    }

    /** The top-up dialog's `onSelect`: a pending request for the chosen package,
        then the dialog closes. */
    method SelectTopUp(id: string, points: int, price: int, now: int)
      requires user.Some?
      modifies this`topUpRequests, this`isTopUpOpen
      ensures topUpRequests == App.RequestTopUp(old(topUpRequests), id, user.value, points, price, now)
      ensures !isTopUpOpen
    {
      topUpRequests := App.RequestTopUp(topUpRequests, id, user.value, points, price, now);
      isTopUpOpen := false;
    }

    /** The withdrawal dialog's `onWithdraw`: a pending request (no balance is
        taken), then the dialog closes. */
    method SubmitWithdraw(id: string, call: Modals.WithdrawCall, now: int)
      requires user.Some?
      modifies this`withdrawRequests, this`isWithdrawOpen
      ensures withdrawRequests == App.RequestWithdraw(old(withdrawRequests), id, user.value, call, now)
      ensures !isWithdrawOpen
    {
      withdrawRequests := App.RequestWithdraw(withdrawRequests, id, user.value, call, now);
      isWithdrawOpen := false;
    }
  }
}
