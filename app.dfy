/** The state transitions of the application shell (App.tsx). Each handler there
    overwrites some of its state fields with a value computed from the old ones
    by `map`, `filter`, spreads and computed keys; this module gives those
    values as functions. The fields themselves live in `AppState.Store`. */
module App {
  import opened Types
  import opened JsArray
  import JsString
  import Modals
  import PostCard

  /** `7 * 24 * 60 * 60 * 1000` */
  const WeekMillis: int := 604800000

  /** The balance a newly approved account starts with. */
  const SignupBalance: real := 1000.0

  // ================================================================ accounts

  /** `prev[id]?.giftBalance || 0` */
  function Balance(users: map<string, User>, id: string): real {
    if id in users then users[id].giftBalance else 0.0
  }

  /** `{ ...prev[id], giftBalance: (prev[id]?.giftBalance || 0) + amount }` */
  function Credited(users: map<string, User>, id: string, amount: real): User {
    (if id in users then users[id] else BlankUser).(giftBalance := Balance(users, id) + amount)
  }

  /** `{ ...prev, [id]: Credited(prev, id, amount) }`: account `id` gains exactly
      `amount` (an unknown account is created holding only that amount) and no
      other account changes. */
  function Credit(users: map<string, User>, id: string, amount: real): (r: map<string, User>)
    ensures r.Keys == users.Keys + {id}
    ensures Balance(r, id) == Balance(users, id) + amount
    ensures id in users ==> r[id] == users[id].(giftBalance := users[id].giftBalance + amount)
    ensures id !in users ==> r[id] == BlankUser.(giftBalance := amount)
    ensures forall k :: k in users && k != id ==> r[k] == users[k]
  {
    users[id := Credited(users, id, amount)]
  }

  /** Accounts `users` and `r` agree on `k`. */
  predicate SameAccount(users: map<string, User>, r: map<string, User>, k: string) {
    (k in r <==> k in users) && (k in users ==> r[k] == users[k])
  }

  /** `{ ...prev[k], giftBalance: … }`: in `r` account `k` is its record in
      `users`, or the empty record when it had none, with at most the balance
      changed. */
  predicate OnlyBalance(users: map<string, User>, r: map<string, User>, k: string) {
    && (k in users ==> k in r && r[k] == users[k].(giftBalance := r[k].giftBalance))
    && (k !in users && k in r ==> r[k] == BlankUser.(giftBalance := r[k].giftBalance))
  }

  /** `user?.giftBalance || 0`: the balance of the signed-in session. */
  function TotalBalance(session: Option<User>): real {
    if session.Some? then session.value.giftBalance else 0.0
  }

  /** The effect that copies the signed-in account back into the session
      whenever the account table changes and its balance or name differ
      (App.tsx:51-58). */
  function Synced(session: Option<User>, users: map<string, User>): (r: Option<User>)
    ensures r.Some? <==> session.Some?
    ensures session.Some? && session.value.id in users ==>
              r.value.giftBalance == users[session.value.id].giftBalance
              && r.value.name == users[session.value.id].name
    ensures session.None? || session.value.id !in users ==> r == session
    ensures r == session || (session.Some? && session.value.id in users && r == Some(users[session.value.id]))
  {
    if session.Some? && session.value.id in users
       && (users[session.value.id].giftBalance != session.value.giftBalance
           || users[session.value.id].name != session.value.name)
    then Some(users[session.value.id])
    else session
  }

  // ================================================================ generic updates

  /** `s.map(x => hit(x) ? f(x) : x)` */
  function UpdateWhere<T>(s: seq<T>, hit: T -> bool, f: T -> T): (r: seq<T>)
    ensures |r| == |s|
    ensures forall i :: 0 <= i < |s| ==> r[i] == if hit(s[i]) then f(s[i]) else s[i]
  {
    Map(s, (x: T) => if hit(x) then f(x) else x)
  }

  // ================================================================ queues

  /** `prev.filter(r => r.id !== id)` on the top-up queue. */
  function RemoveTopUp(reqs: seq<TopUpRequest>, id: string): (r: seq<TopUpRequest>)
    ensures forall t :: t in r <==> t in reqs && t.id != id
    ensures forall t: TopUpRequest {:trigger multiset(r)[t]} :: t.id != id ==> multiset(r)[t] == multiset(reqs)[t]
  {
    Filter(reqs, (t: TopUpRequest) => t.id != id)
  }

  function FindTopUp(reqs: seq<TopUpRequest>, id: string): Option<TopUpRequest> {
    Find(reqs, (t: TopUpRequest) => t.id == id)
  }

  /** `handleApproveTopUp`: for a known id, the requester gains exactly the
      request's points (a missing account counting as 0), only that id leaves
      the queue and no other account changes; an unknown id changes nothing. */
  function ApproveTopUp(users: map<string, User>, reqs: seq<TopUpRequest>, id: string)
    : (r: (map<string, User>, seq<TopUpRequest>))
    ensures (forall t :: t in reqs ==> t.id != id) ==> r == (users, reqs)
    ensures FindTopUp(reqs, id).Some? ==>
              var req := FindTopUp(reqs, id).value;
              && req in reqs && req.id == id
              && Balance(r.0, req.userId) == Balance(users, req.userId) + req.points as real
              && r.0.Keys == users.Keys + {req.userId}
              && OnlyBalance(users, r.0, req.userId)
              && (forall k :: k != req.userId ==> SameAccount(users, r.0, k))
              && (forall t :: t in r.1 <==> t in reqs && t.id != id)
              && (forall t: TopUpRequest {:trigger multiset(r.1)[t]} :: t.id != id ==> multiset(r.1)[t] == multiset(reqs)[t])
  {
    match FindTopUp(reqs, id)
    case None => (users, reqs)
    case Some(req) => (Credit(users, req.userId, req.points as real), RemoveTopUp(reqs, id))
  }

  /** The top-up dialog's `onSelect`: a pending request is put in front of the queue. */
  function RequestTopUp(reqs: seq<TopUpRequest>, id: string, user: User, points: int, price: int, now: int)
    : (r: seq<TopUpRequest>)
    ensures |r| == |reqs| + 1 && r[1..] == reqs
    ensures r[0] == TopUpRequest(id, user.id, user.name, points, price, Pending, now)
  {
    [TopUpRequest(id, user.id, user.name, points, price, Pending, now)] + reqs
  }

  /** `prev.filter(r => r.id !== id)` on the withdrawal queue: both approving and
      rejecting a withdrawal do exactly this and touch no balance. */
  function RemoveWithdraw(reqs: seq<WithdrawRequest>, id: string): (r: seq<WithdrawRequest>)
    ensures forall w :: w in r <==> w in reqs && w.id != id
    ensures forall w: WithdrawRequest {:trigger multiset(r)[w]} :: w.id != id ==> multiset(r)[w] == multiset(reqs)[w]
  {
    Filter(reqs, (w: WithdrawRequest) => w.id != id)
  }

  /** The withdrawal dialog's `onWithdraw`: a pending request is put in front of
      the queue; the bank name is not recorded and no balance is touched. */
  function RequestWithdraw(reqs: seq<WithdrawRequest>, id: string, user: User, call: Modals.WithdrawCall, now: int)
    : (r: seq<WithdrawRequest>)
    ensures |r| == |reqs| + 1 && r[1..] == reqs
    ensures r[0] == WithdrawRequest(id, user.id, user.name, call.amount, call.payoutMethod, call.account, Pending, now)
  {
    [WithdrawRequest(id, user.id, user.name, call.amount, call.payoutMethod, call.account, Pending, now)] + reqs
  }

  // ================================================================ sign-up

  /** `u.startsWith('@') ? u : '@' + u` */
  function NormalizeUsername(u: string): (r: string)
    ensures JsString.StartsWith(r, '@')
    ensures r == u || r == "@" + u
  {
    if JsString.StartsWith(u, '@') then u else "@" + u
  }

  /** Normalising adds the `@` only when it is missing, so normalising twice is
      normalising once, and a name that already has it is kept as it is. */
  lemma NormalizeUsernameIdempotent(u: string)
    ensures NormalizeUsername(NormalizeUsername(u)) == NormalizeUsername(u)
    ensures JsString.StartsWith(u, '@') <==> NormalizeUsername(u) == u
  {
    if !JsString.StartsWith(u, '@') {
      assert |NormalizeUsername(u)| == |u| + 1;
    }
  }

  /** The administrator's hard-coded credentials. */
  const AdminUsername: string := "superadmin"
  const AdminPassword: string := "superman"

  /** `handleLogin`: the administrator pair signs in as `admin`; otherwise the
      first account, in enumeration order `values`, whose username is the
      normalised input is looked up, and it signs in when its password is the
      one typed. An account without a password never matches. */
  function Login(values: seq<User>, username: string, password: string, admin: User): (r: Option<User>)
    ensures username == AdminUsername && password == AdminPassword ==> r == Some(admin)
    ensures !(username == AdminUsername && password == AdminPassword) && r.Some? ==>
              && r.value in values
              && r.value.username == NormalizeUsername(username)
              && r.value.password == Some(password)
    ensures !(username == AdminUsername && password == AdminPassword) ==>
              ((forall u :: u in values ==> u.username != NormalizeUsername(username)) ==> r.None?)
    ensures !(username == AdminUsername && password == AdminPassword) ==>
              (forall i :: 0 <= i < |values| && values[i].username == NormalizeUsername(username) ==>
                 ((forall j :: 0 <= j < i ==> values[j].username != NormalizeUsername(username)) ==>
                    (r.Some? <==> values[i].password == Some(password)) && (r.Some? ==> r.value == values[i])))
  {
    if username == AdminUsername && password == AdminPassword then Some(admin)
    else
      var clean := NormalizeUsername(username);
      var k := FindIndex(values, (u: User) => u.username == clean);
      if k < |values| && values[k].password == Some(password) then Some(values[k]) else None
  }

  datatype SignupForm = SignupForm(
    name: string, username: string, password: string, bio: string,
    waNumber: string, email: string, address: string, avatar: string)

  /** `handleSignUp`: a pending request with the normalised username is put in
      front of the queue. */
  function SignUp(reqs: seq<SignUpRequest>, form: SignupForm, id: string, now: int)
    : (r: seq<SignUpRequest>)
    ensures |r| == |reqs| + 1 && r[1..] == reqs
    ensures r[0].id == id && r[0].status == Pending && r[0].timestamp == now
    ensures r[0].username == NormalizeUsername(form.username) && JsString.StartsWith(r[0].username, '@')
    ensures r[0].name == form.name && r[0].password == Some(form.password) && r[0].email == form.email
    ensures r[0].avatar == form.avatar && r[0].bio == form.bio
    ensures r[0].waNumber == form.waNumber && r[0].address == form.address
  {
    [SignUpRequest(id, form.name, NormalizeUsername(form.username), Some(form.password), form.avatar,
                   form.bio, form.waNumber, form.email, form.address, Pending, now)] + reqs
  }

  /** `prev.filter(r => r.id !== id)` on the sign-up queue. */
  function RemoveSignup(reqs: seq<SignUpRequest>, id: string): (r: seq<SignUpRequest>)
    ensures forall q :: q in r <==> q in reqs && q.id != id
    ensures forall q: SignUpRequest {:trigger multiset(r)[q]} :: q.id != id ==> multiset(r)[q] == multiset(reqs)[q]
  {
    Filter(reqs, (q: SignUpRequest) => q.id != id)
  }

  function FindSignup(reqs: seq<SignUpRequest>, id: string): Option<SignUpRequest> {
    Find(reqs, (q: SignUpRequest) => q.id == id)
  }

  /** The account `handleApproveUser` builds from a request. */
  function NewAccount(req: SignUpRequest, newId: string): (u: User)
    ensures u.giftBalance == SignupBalance && u.followersCount == 0 && u.followingCount == 0
    ensures u.status == Some(Approved) && !u.isAdmin
    ensures u.id == newId && u.name == req.name && u.username == req.username && u.password == req.password
    ensures u.avatar == req.avatar && u.bio == req.bio
    ensures u.waNumber == Some(req.waNumber) && u.email == Some(req.email) && u.address == Some(req.address)
  {
    User(newId, req.name, req.avatar, req.username, req.password, req.bio,
         Some(req.waNumber), Some(req.email), Some(req.address), 0, 0, SignupBalance, false, Some(Approved))
  }

  /** `handleApproveUser`: for a known request, an approved account with 1000
      points and no followers is stored under the new id, the request leaves the
      queue and no other account changes; an unknown id changes nothing. */
  function ApproveUser(users: map<string, User>, reqs: seq<SignUpRequest>, id: string, newId: string)
    : (r: (map<string, User>, seq<SignUpRequest>))
    ensures (forall q :: q in reqs ==> q.id != id) ==> r == (users, reqs)
    ensures FindSignup(reqs, id).Some? ==>
              var req := FindSignup(reqs, id).value;
              && r.0.Keys == users.Keys + {newId}
              && r.0[newId] == NewAccount(req, newId)
              && (forall k :: k != newId ==> SameAccount(users, r.0, k))
              && (forall q :: q in r.1 <==> q in reqs && q.id != id)
              && (forall q: SignUpRequest {:trigger multiset(r.1)[q]} :: q.id != id ==> multiset(r.1)[q] == multiset(reqs)[q])
  {
    match FindSignup(reqs, id)
    case None => (users, reqs)
    case Some(req) => (users[newId := NewAccount(req, newId)], RemoveSignup(reqs, id))
  }

  // ================================================================ posts

  function FindPost(posts: seq<Post>, id: string): Option<Post> {
    Find(posts, (p: Post) => p.id == id)
  }

  /** The posts the admin sees as pending spotlight requests (App.tsx:318). */
  function PendingPromos(posts: seq<Post>): (r: seq<Post>)
    ensures forall p :: p in r <==> p in posts && p.isPendingPromotion
  {
    Filter(posts, (p: Post) => p.isPendingPromotion)
  }

  /** The change `handleApprovePromo` makes to a matching post. */
  function Promoted(p: Post, now: int): (q: Post)
    ensures q.isPromoted && !q.isPendingPromotion && q.promotedUntil == Some(now + WeekMillis)
    ensures q.(isPromoted := p.isPromoted, isPendingPromotion := p.isPendingPromotion,
               promotedUntil := p.promotedUntil) == p
  {
    p.(isPromoted := true, isPendingPromotion := false, promotedUntil := Some(now + WeekMillis))
  }

  /** `handleApprovePromo`: every post with the id is promoted for a week from
      `now`, whatever plan was asked for; every other post is unchanged. */
  function ApprovePromo(posts: seq<Post>, postId: string, now: int): (r: seq<Post>)
    ensures |r| == |posts|
    ensures forall i :: 0 <= i < |posts| ==> r[i] == if posts[i].id == postId then Promoted(posts[i], now) else posts[i]
  {
    UpdateWhere(posts, (p: Post) => p.id == postId, (p: Post) => Promoted(p, now))
  }

  /** An approved post is shown as promoted exactly until a week after the
      approval, and is no longer pending. */
  lemma ApprovePromoWindow(posts: seq<Post>, postId: string, now: int, i: int, t: int)
    requires 0 <= i < |posts| && posts[i].id == postId
    ensures PostCard.IsCurrentlyPromoted(ApprovePromo(posts, postId, now)[i], t) <==> t < now + WeekMillis
    ensures forall p :: p in PendingPromos(ApprovePromo(posts, postId, now)) ==> p.id != postId
  {
    var r := ApprovePromo(posts, postId, now);
    forall p | p in PendingPromos(r) ensures p.id != postId {
      var k :| 0 <= k < |r| && r[k] == p;
    }
  }

  /** `handleRejectPromo`: only `isPendingPromotion` is cleared, on the posts with
      the id. */
  function RejectPromo(posts: seq<Post>, postId: string): (r: seq<Post>)
    ensures |r| == |posts|
    ensures forall i :: 0 <= i < |posts| ==>
              r[i] == if posts[i].id == postId then posts[i].(isPendingPromotion := false) else posts[i]
  {
    UpdateWhere(posts, (p: Post) => p.id == postId, (p: Post) => p.(isPendingPromotion := false))
  }

  /** Rejecting never changes whether any post is shown as promoted, at any time,
      and leaves no post with that id pending. */
  lemma RejectPromoKeepsSpotlight(posts: seq<Post>, postId: string, t: int)
    ensures forall i :: 0 <= i < |posts| ==>
              PostCard.IsCurrentlyPromoted(RejectPromo(posts, postId)[i], t) == PostCard.IsCurrentlyPromoted(posts[i], t)
    ensures forall p :: p in PendingPromos(RejectPromo(posts, postId)) ==> p.id != postId
  {
    var r := RejectPromo(posts, postId);
    forall p | p in PendingPromos(r) ensures p.id != postId {
      var k :| 0 <= k < |r| && r[k] == p;
    }
  }

  /** The card's `onPromoteRequest`: the posts with the id become pending; nothing
      else changes, and in particular no points are taken. */
  function PromoteRequest(posts: seq<Post>, postId: string): (r: seq<Post>)
    ensures |r| == |posts|
    ensures forall i :: 0 <= i < |posts| ==>
              r[i] == if posts[i].id == postId then posts[i].(isPendingPromotion := true) else posts[i]
  {
    UpdateWhere(posts, (p: Post) => p.id == postId, (p: Post) => p.(isPendingPromotion := true))
  }

  /** After a request the post reaches the admin's pending list. */
  lemma PromoteRequestIsPending(posts: seq<Post>, i: int)
    requires 0 <= i < |posts|
    ensures PromoteRequest(posts, posts[i].id)[i] in PendingPromos(PromoteRequest(posts, posts[i].id))
  {
  }

  /** `prev.filter(p => p.id !== postId)` */
  function RemovePost(posts: seq<Post>, postId: string): (r: seq<Post>)
    ensures forall p :: p in r <==> p in posts && p.id != postId
    ensures forall p: Post {:trigger multiset(r)[p]} :: p.id != postId ==> multiset(r)[p] == multiset(posts)[p]
  {
    Filter(posts, (p: Post) => p.id != postId)
  }

  /** `prev.filter(r => r.id !== reportId)` */
  function RemoveReport(reports: seq<ReportRecord>, reportId: string): (r: seq<ReportRecord>)
    ensures forall q :: q in r <==> q in reports && q.id != reportId
    ensures forall q: ReportRecord {:trigger multiset(r)[q]} :: q.id != reportId ==> multiset(r)[q] == multiset(reports)[q]
  {
    Filter(reports, (q: ReportRecord) => q.id != reportId)
  }

  /** The change the like button makes to a post. */
  function Liked(p: Post): (q: Post)
    ensures q.isLiked == !p.isLiked
    ensures q.likes == if p.isLiked then p.likes - 1 else p.likes + 1
    ensures q.(likes := p.likes, isLiked := p.isLiked) == p
  {
    p.(likes := if p.isLiked then p.likes - 1 else p.likes + 1, isLiked := !p.isLiked)
  }

  /** The card's `onLike`. */
  function ToggleLike(posts: seq<Post>, postId: string): (r: seq<Post>)
    ensures |r| == |posts|
    ensures forall i :: 0 <= i < |posts| ==> r[i] == if posts[i].id == postId then Liked(posts[i]) else posts[i]
  {
    UpdateWhere(posts, (p: Post) => p.id == postId, Liked)
  }

  /** Liking twice is the identity. */
  lemma ToggleLikeTwice(posts: seq<Post>, postId: string)
    ensures ToggleLike(ToggleLike(posts, postId), postId) == posts
  {
    var r := ToggleLike(ToggleLike(posts, postId), postId);
    assert forall i :: 0 <= i < |posts| ==> r[i] == posts[i];
  }

  /** The card's `onAddComment`: the comment is appended to the posts with the id. */
  function AddComment(posts: seq<Post>, postId: string, c: Comment): (r: seq<Post>)
    ensures |r| == |posts|
    ensures forall i :: 0 <= i < |posts| ==>
              r[i] == if posts[i].id == postId then posts[i].(comments := posts[i].comments + [c]) else posts[i]
  {
    UpdateWhere(posts, (p: Post) => p.id == postId, (p: Post) => p.(comments := p.comments + [c]))
  }

  /** The comment a signed-in user's text becomes. */
  function NewComment(id: string, author: User, text: string, now: int): Comment {
    Comment(id, author.id, author.name, text, now)
  }

  /** The post `onPublish` puts in front of the feed. */
  function NewPost(id: string, author: User, title: string, content: string, caption: string, now: int): Post {
    Post(id, author.id, title, content, caption, 0, [], 0, 0, None, 0, now, false, false, None, false)
  }

  /** The editor's `onPublish`: the new post is prepended, with every counter at 0
      and no promotion. */
  function Publish(posts: seq<Post>, p: Post): (r: seq<Post>)
    ensures |r| == |posts| + 1 && r[0] == p && r[1..] == posts
  {
    [p] + posts
  }

  /** Follow and save toggles: `n.has(id) ? n.delete(id) : n.add(id)` on a copy. */
  function ToggleMember(s: set<string>, id: string): (r: set<string>)
    ensures id in r <==> id !in s
    ensures forall k :: k != id ==> (k in r <==> k in s)
  {
    if id in s then s - {id} else s + {id}
  }

  /** Toggling twice is the identity. */
  lemma ToggleMemberTwice(s: set<string>, id: string)
    ensures ToggleMember(ToggleMember(s, id), id) == s
  {
  }

  // ================================================================ views

  /** The change `handleIncrementView` makes to a matching post. */
  function Viewed(p: Post): (q: Post)
    ensures q.views == p.views + 1 && q.(views := p.views) == p
  {
    p.(views := p.views + 1)
  }

  /** The post list after a view: exactly one more view on each post with the id. */
  function ViewPosts(posts: seq<Post>, postId: string): (r: seq<Post>)
    ensures |r| == |posts|
    ensures forall i :: 0 <= i < |posts| ==> r[i] == if posts[i].id == postId then Viewed(posts[i]) else posts[i]
  {
    UpdateWhere(posts, (p: Post) => p.id == postId, Viewed)
  }

  /** A view pays the author only when someone is signed in and is not the author. */
  predicate Paid(viewer: Option<string>, author: string) {
    viewer.Some? && viewer.value != author
  }

  /** The credits the `map` callback of `handleIncrementView` queues, one per
      matching post, applied in list order. */
  function ViewCredits(users: map<string, User>, posts: seq<Post>, postId: string, viewer: Option<string>, rate: real)
    : map<string, User>
    decreases |posts|
  {
    if posts == [] then users
    else
      var u := if posts[0].id == postId && Paid(viewer, posts[0].userId)
               then Credit(users, posts[0].userId, rate) else users;
      ViewCredits(u, posts[1..], postId, viewer, rate)
  }

  /** The number of posts with id `postId` written by `author`. */
  function Occurrences(posts: seq<Post>, postId: string, author: string): nat {
    if posts == [] then 0
    else (if posts[0].id == postId && posts[0].userId == author then 1 else 0) + Occurrences(posts[1..], postId, author)
  }

  /** `n` credits of `rate` each. */
  function Gain(rate: real, n: nat): (g: real)
    ensures g == rate * n as real
  {
    if n == 0 then 0.0 else Gain(rate, n - 1) + rate
  }

  /** Every account gains the view rate once per matching post it wrote when
      the view is paid. */
  lemma {:induction false} ViewCreditsBalance(users: map<string, User>, posts: seq<Post>, postId: string,
                                              viewer: Option<string>, rate: real, a: string)
    ensures Balance(ViewCredits(users, posts, postId, viewer, rate), a)
            == Balance(users, a) + (if Paid(viewer, a) then Gain(rate, Occurrences(posts, postId, a)) else 0.0)
    decreases |posts|
  {
    if posts != [] {
      var hit := posts[0].id == postId && Paid(viewer, posts[0].userId);
      var u := if hit then Credit(users, posts[0].userId, rate) else users;
      assert ViewCredits(users, posts, postId, viewer, rate) == ViewCredits(u, posts[1..], postId, viewer, rate);
      ViewCreditsBalance(u, posts[1..], postId, viewer, rate, a);
      var n := Occurrences(posts[1..], postId, a);
      if hit && posts[0].userId == a {
        assert Balance(u, a) == Balance(users, a) + rate;
        assert Occurrences(posts, postId, a) == n + 1;
        assert Gain(rate, n + 1) == Gain(rate, n) + rate;
      } else {
        assert Balance(u, a) == Balance(users, a);
        assert Paid(viewer, a) ==> Occurrences(posts, postId, a) == n;
      }
    }
  }

  /** An account that wrote no matching post, or whose view is not paid, is left
      exactly as it was. */
  lemma {:induction false} ViewCreditsUntouched(users: map<string, User>, posts: seq<Post>, postId: string,
                                                viewer: Option<string>, rate: real, a: string)
    requires !Paid(viewer, a) || Occurrences(posts, postId, a) == 0
    ensures SameAccount(users, ViewCredits(users, posts, postId, viewer, rate), a)
    decreases |posts|
  {
    if posts != [] {
      var hit := posts[0].id == postId && Paid(viewer, posts[0].userId);
      var u := if hit then Credit(users, posts[0].userId, rate) else users;
      assert SameAccount(users, u, a);
      ViewCreditsUntouched(u, posts[1..], postId, viewer, rate, a);
    }
  }

  /** The queued credits change no field of any account but its balance. */
  lemma {:induction false} ViewCreditsOnlyBalance(users: map<string, User>, posts: seq<Post>, postId: string,
                                                  viewer: Option<string>, rate: real, a: string)
    ensures OnlyBalance(users, ViewCredits(users, posts, postId, viewer, rate), a)
    decreases |posts|
  {
    if posts != [] {
      var hit := posts[0].id == postId && Paid(viewer, posts[0].userId);
      var u := if hit then Credit(users, posts[0].userId, rate) else users;
      assert OnlyBalance(users, u, a);
      ViewCreditsOnlyBalance(u, posts[1..], postId, viewer, rate, a);
    }
  }

  /** Post ids are distinct. */
  predicate UniqueIds(posts: seq<Post>) {
    forall i, j :: 0 <= i < j < |posts| ==> posts[i].id != posts[j].id
  }

  lemma {:induction false} OccurrencesUnique(posts: seq<Post>, i: int, a: string)
    requires UniqueIds(posts) && 0 <= i < |posts|
    ensures Occurrences(posts, posts[i].id, a) == if posts[i].userId == a then 1 else 0
  {
    if i > 0 {
      assert UniqueIds(posts[1..]) by {
        forall j, k | 0 <= j < k < |posts[1..]| ensures posts[1..][j].id != posts[1..][k].id {
          assert posts[1..][j] == posts[j + 1] && posts[1..][k] == posts[k + 1];
        }
      }
      assert posts[1..][i - 1] == posts[i];
      OccurrencesUnique(posts[1..], i - 1, a);
    } else {
      assert Occurrences(posts[1..], posts[0].id, a) == 0 by {
        OccurrencesAbsent(posts[1..], posts[0].id, a);
      }
    }
  }

  lemma {:induction false} OccurrencesAbsent(posts: seq<Post>, postId: string, a: string)
    requires forall p :: p in posts ==> p.id != postId
    ensures Occurrences(posts, postId, a) == 0
  {
    if posts != [] {
      assert forall p :: p in posts[1..] ==> p in posts;
      OccurrencesAbsent(posts[1..], postId, a);
    }
  }

  /** `handleIncrementView` on a post whose id is unique: its author gains exactly
      the view rate when a viewer is signed in and is not the author, and every
      other account is unchanged. */
  lemma IncrementViewPaysAuthor(users: map<string, User>, posts: seq<Post>, i: int, viewer: Option<string>, rate: real)
    requires UniqueIds(posts) && 0 <= i < |posts|
    ensures var a := posts[i].userId;
            var r := ViewCredits(users, posts, posts[i].id, viewer, rate);
            && Balance(r, a) == Balance(users, a) + (if Paid(viewer, a) then rate else 0.0)
            && (!Paid(viewer, a) ==> SameAccount(users, r, a))
            && OnlyBalance(users, r, a)
            && (forall k :: k != a ==> SameAccount(users, r, k))
            && ViewPosts(posts, posts[i].id)[i].views == posts[i].views + 1
  {
    var a := posts[i].userId;
    OccurrencesUnique(posts, i, a);
    ViewCreditsBalance(users, posts, posts[i].id, viewer, rate, a);
    ViewCreditsOnlyBalance(users, posts, posts[i].id, viewer, rate, a);
    if !Paid(viewer, a) {
      ViewCreditsUntouched(users, posts, posts[i].id, viewer, rate, a);
    }
    forall k | k != a
      ensures SameAccount(users, ViewCredits(users, posts, posts[i].id, viewer, rate), k)
    {
      OccurrencesUnique(posts, i, k);
      ViewCreditsUntouched(users, posts, posts[i].id, viewer, rate, k);
    }
  }

  // ================================================================ gifts

  datatype GiftOutcome = OpenTopUp | NoSession | PostMissing | SenderMissing | Sent

  /** The early returns of `handleGift`, in their order. `SenderMissing` is where
      the source reads `prev[user.id].giftBalance` of an account that is not in
      the table and throws. */
  function GiftCheck(session: Option<User>, users: map<string, User>, posts: seq<Post>, postId: string, price: int)
    : (o: GiftOutcome)
    ensures o == OpenTopUp <==> TotalBalance(session) < price as real
    ensures o == Sent <==> TotalBalance(session) >= price as real && session.Some?
                           && FindPost(posts, postId).Some? && session.value.id in users
  {
    if TotalBalance(session) < price as real then OpenTopUp
    else if session.None? then NoSession
    else if FindPost(posts, postId).None? then PostMissing
    else if session.value.id !in users then SenderMissing
    else Sent
  }

  /** The computed-key literal of `handleGift`: the sender's entry first, then
      the author's, both computed from the old table, so for a gift to oneself
      the author's entry (old balance + price) wins. */
  function GiftBalances(users: map<string, User>, sender: string, author: string, price: int)
    : (r: map<string, User>)
    requires sender in users
    ensures r.Keys == users.Keys + {author}
    ensures sender != author ==> Balance(r, sender) == Balance(users, sender) - price as real
    ensures sender != author ==> Balance(r, author) == Balance(users, author) + price as real
    ensures sender != author ==> Balance(r, sender) + Balance(r, author) == Balance(users, sender) + Balance(users, author)
    ensures sender == author ==> Balance(r, author) == Balance(users, author) + price as real
    ensures forall k :: k != sender && k != author ==> SameAccount(users, r, k)
    ensures OnlyBalance(users, r, sender) && OnlyBalance(users, r, author)
  {
    var debited := users[sender := users[sender].(giftBalance := users[sender].giftBalance - price as real)];
    debited[author := Credited(users, author, price as real)]
  }

  /** `p.giftStats || {}` */
  function Stats(p: Post): map<string, GiftStat> {
    p.giftStats.GetOr(map[])
  }

  /** `(p.giftStats || {})[name]?.count || 0` */
  function StatCount(p: Post, name: string): int {
    if name in Stats(p) then Stats(p)[name].count else 0
  }

  /** The change `handleGift` makes to the gifted post: its total grows by the
      price and the gift's counter by one (from 0 when new), with the gift's
      icon; every other counter and field stays. */
  function WithGift(p: Post, gift: Modals.GiftItem): (q: Post)
    ensures q.gifts == p.gifts + gift.price
    ensures StatCount(q, gift.name) == StatCount(p, gift.name) + 1
    ensures gift.name in Stats(q) && Stats(q)[gift.name].icon == gift.icon
    ensures forall k :: k != gift.name ==> (k in Stats(q) <==> k in Stats(p)) && (k in Stats(p) ==> Stats(q)[k] == Stats(p)[k])
    ensures q.(gifts := p.gifts, giftStats := p.giftStats) == p
  {
    var stats := Stats(p);
    var current := if gift.name in stats then stats[gift.name] else GiftStat(0, gift.icon);
    p.(gifts := p.gifts + gift.price, giftStats := Some(stats[gift.name := GiftStat(current.count + 1, gift.icon)]))
  }

  /** The post list after a gift: the change is made to the posts with the id only. */
  function GiftPosts(posts: seq<Post>, postId: string, gift: Modals.GiftItem): (r: seq<Post>)
    ensures |r| == |posts|
    ensures forall i :: 0 <= i < |posts| ==> r[i] == if posts[i].id == postId then WithGift(posts[i], gift) else posts[i]
  {
    UpdateWhere(posts, (p: Post) => p.id == postId, (p: Post) => WithGift(p, gift))
  }

  /** A gift offered by the gift dialog (balance at least the price) always gets
      past `handleGift`'s balance check, and a gift that check refuses is one the
      dialog disables. */
  lemma GiftDialogAgreesWithHandler(session: Option<User>, users: map<string, User>, posts: seq<Post>,
                                     postId: string, g: Modals.GiftItem)
    ensures Modals.SelectGift(TotalBalance(session), g).Some?
            <==> GiftCheck(session, users, posts, postId, g.price) != OpenTopUp
  {
  }

  /** As written, a gift to one's own post creates points: the author's entry,
      computed from the old table, overwrites the sender's debit. The shell
      passes no `currentUserId` to any card, so the own-post guard never stops
      this. */
  lemma SelfGiftMintsPoints(users: map<string, User>, sender: string, price: int)
    requires sender in users && price > 0
    ensures Balance(GiftBalances(users, sender, sender, price), sender) == Balance(users, sender) + price as real
    ensures Balance(GiftBalances(users, sender, sender, price), sender) > Balance(users, sender)
  {
  }

  /** The transfer `handleGift` evidently intends: the author's credit is applied
      on top of the sender's debit, so a gift moves points and never creates
      them; a gift to oneself changes nothing. */
  function GiftTransfer(users: map<string, User>, sender: string, author: string, price: int)
    : (r: map<string, User>)
    requires sender in users
    ensures r.Keys == users.Keys + {author}
    ensures sender != author ==> Balance(r, sender) == Balance(users, sender) - price as real
    ensures sender != author ==> Balance(r, author) == Balance(users, author) + price as real
    ensures Balance(r, sender) + Balance(r, author) == Balance(users, sender) + Balance(users, author)
    ensures sender == author ==> r == users
    ensures forall k :: k != sender && k != author ==> SameAccount(users, r, k)
    ensures OnlyBalance(users, r, sender) && OnlyBalance(users, r, author)
  {
    var debited := users[sender := users[sender].(giftBalance := users[sender].giftBalance - price as real)];
    Credit(debited, author, price as real)
  }

  /** Between two different accounts the corrected transfer is exactly the
      source's computed-key update. */
  lemma GiftTransferAgrees(users: map<string, User>, sender: string, author: string, price: int)
    requires sender in users && sender != author
    ensures GiftTransfer(users, sender, author, price) == GiftBalances(users, sender, author, price)
  {
  }

  /** With the session in step with the table, a sent gift never leaves the
      sender below zero. */
  lemma GiftKeepsSenderSolvent(session: Option<User>, users: map<string, User>, posts: seq<Post>,
                               postId: string, gift: Modals.GiftItem)
    requires GiftCheck(session, users, posts, postId, gift.price) == Sent
    requires session.value.giftBalance == users[session.value.id].giftBalance
    requires gift.price >= 0
    ensures Balance(GiftTransfer(users, session.value.id, FindPost(posts, postId).value.userId, gift.price),
                    session.value.id) >= 0.0
  {
  }

  // ================================================================ ads

  function FindAd(ads: seq<Advertisement>, id: string): Option<Advertisement> {
    Find(ads, (a: Advertisement) => a.id == id)
  }

  /** `handleSaveAd`: an upsert. An ad whose id is present replaces every ad with
      that id in place; a new one is put in front. */
  function SaveAd(ads: seq<Advertisement>, ad: Advertisement): (r: seq<Advertisement>)
    ensures FindAd(ads, ad.id).Some? ==>
              |r| == |ads| && forall i :: 0 <= i < |ads| ==> r[i] == if ads[i].id == ad.id then ad else ads[i]
    ensures FindAd(ads, ad.id).None? ==> r == [ad] + ads
  {
    if FindAd(ads, ad.id).Some? then UpdateWhere(ads, (a: Advertisement) => a.id == ad.id, (a: Advertisement) => ad)
    else [ad] + ads
  }

  /** The upsert finds what it stored, and saving the same ad again changes nothing. */
  lemma SaveAdUpsert(ads: seq<Advertisement>, ad: Advertisement)
    ensures FindAd(SaveAd(ads, ad), ad.id) == Some(ad)
    ensures SaveAd(SaveAd(ads, ad), ad) == SaveAd(ads, ad)
    ensures |SaveAd(ads, ad)| == if FindAd(ads, ad.id).Some? then |ads| else |ads| + 1
  {
    var r := SaveAd(ads, ad);
    var hit := (a: Advertisement) => a.id == ad.id;
    if FindAd(ads, ad.id).Some? {
      FindIndexAgrees(ads, r, hit);
      var i := FindIndex(ads, hit);
      assert r[i] == ad;
      var r2 := SaveAd(r, ad);
      assert forall k :: 0 <= k < |r| ==> r2[k] == r[k];
    } else {
      assert FindIndex(r, hit) == 0;
      var r2 := SaveAd(r, ad);
      assert forall k :: 0 <= k < |r| ==> r2[k] == r[k];
    }
  }

  /** `findIndex` depends only on which positions satisfy the predicate. */
  lemma {:induction false} FindIndexAgrees<T>(s: seq<T>, t: seq<T>, p: T -> bool)
    requires |s| == |t| && forall i :: 0 <= i < |s| ==> p(s[i]) == p(t[i])
    ensures FindIndex(s, p) == FindIndex(t, p)
  {
    if s != [] && !p(s[0]) {
      FindIndexAgrees(s[1..], t[1..], p);
    }
  }

  /** `handleToggleAd`: flips `isActive` of the ads with the id, nothing else. */
  function ToggleAd(ads: seq<Advertisement>, id: string): (r: seq<Advertisement>)
    ensures |r| == |ads|
    ensures forall i :: 0 <= i < |ads| ==>
              r[i] == if ads[i].id == id then ads[i].(isActive := !ads[i].isActive) else ads[i]
  {
    UpdateWhere(ads, (a: Advertisement) => a.id == id, (a: Advertisement) => a.(isActive := !a.isActive))
  }

  /** Toggling an ad twice is the identity. */
  lemma ToggleAdTwice(ads: seq<Advertisement>, id: string)
    ensures ToggleAd(ToggleAd(ads, id), id) == ads
  {
    var r := ToggleAd(ToggleAd(ads, id), id);
    assert forall i :: 0 <= i < |ads| ==> r[i] == ads[i];
  }

  /** `prev.filter(a => a.id !== id)` */
  function RemoveAd(ads: seq<Advertisement>, id: string): (r: seq<Advertisement>)
    ensures forall a :: a in r <==> a in ads && a.id != id
    ensures forall a: Advertisement {:trigger multiset(r)[a]} :: a.id != id ==> multiset(r)[a] == multiset(ads)[a]
  {
    Filter(ads, (a: Advertisement) => a.id != id)
  }

  /** `activeTopAd` / `activeBottomAd`: the first active ad at the position. */
  function ActiveAd(ads: seq<Advertisement>, pos: AdPosition): (r: Option<Advertisement>)
    ensures r.Some? ==> exists i :: 0 <= i < |ads| && ads[i] == r.value
                          && r.value.isActive && r.value.position == pos
                          && forall j :: 0 <= j < i ==> !(ads[j].isActive && ads[j].position == pos)
    ensures r.None? <==> forall a :: a in ads ==> !(a.isActive && a.position == pos)
  {
    var hit := (a: Advertisement) => a.isActive && a.position == pos;
    var i := FindIndex(ads, hit);
    if i < |ads| then Some(ads[i]) else None
  }
}
