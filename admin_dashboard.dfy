/** The rules of the admin dashboard (components/AdminDashboard.tsx): the
    account search, the badge on each tab, and the point-adjust panel's guard. */
module AdminDashboard {
  import opened Types
  import JsString
  import JsArray
  import App

  // ---------------------------------------------------------------- search

  /** The filter's test: the lower-cased query occurs in the lower-cased name or
      in the lower-cased username. */
  predicate Matches(u: User, query: string) {
    || JsString.Includes(JsString.Lower(u.name), JsString.Lower(query))
    || JsString.Includes(JsString.Lower(u.username), JsString.Lower(query))
  }

  /** `order` is the enumeration order of `allUsers`: every key exactly once. */
  predicate Enumerates(users: map<string, User>, order: seq<string>) {
    && (forall k :: k in order ==> k in users)
    && (forall k :: k in users ==> k in order)
    && (forall i, j :: 0 <= i < j < |order| ==> order[i] != order[j])
  }

  /** `Object.values(allUsers)` in the enumeration order. */
  function Values(users: map<string, User>, order: seq<string>): (r: seq<User>)
    requires Enumerates(users, order)
    ensures |r| == |order|
    ensures forall u :: u in r <==> exists k :: k in users && users[k] == u
  {
    var r := seq(|order|, i requires 0 <= i < |order| => users[order[i]]);
    assert forall k :: k in users ==> users[k] in r by {
      forall k | k in users ensures users[k] in r {
        var i :| 0 <= i < |order| && order[i] == k;
        assert r[i] == users[k];
      }
    }
    r
  }

  /** `filteredUsers`: the accounts that match the query, in enumeration order. */
  function FilteredUsers(users: map<string, User>, order: seq<string>, query: string): (r: seq<User>)
    requires Enumerates(users, order)
    ensures |r| <= |users|
    ensures forall u :: u in r <==> (exists k :: k in users && users[k] == u) && Matches(u, query)
  {
    assert |order| == |users| by { DistinctLength(users, order); }
    JsArray.Filter(Values(users, order), (u: User) => Matches(u, query))
  }

  /** A distinct enumeration of the keys has as many entries as there are keys. */
  lemma DistinctLength(users: map<string, User>, order: seq<string>)
    requires Enumerates(users, order)
    ensures |order| == |users|
  {
    var keys := set i | 0 <= i < |order| :: order[i];
    assert keys == users.Keys;
    DistinctCard(order);
  }

  lemma {:induction false} DistinctCard(order: seq<string>)
    requires forall i, j :: 0 <= i < j < |order| ==> order[i] != order[j]
    ensures |set i | 0 <= i < |order| :: order[i]| == |order|
  {
    if order != [] {
      var rest := order[1..];
      DistinctCard(rest);
      var s := set i | 0 <= i < |order| :: order[i];
      var t := set i | 0 <= i < |rest| :: rest[i];
      assert s == {order[0]} + t by {
        forall x | x in s ensures x in {order[0]} + t {
          var i :| 0 <= i < |order| && order[i] == x;
          if i > 0 { assert rest[i - 1] == x; }
        }
        forall x | x in t ensures x in s {
          var i :| 0 <= i < |rest| && rest[i] == x;
          assert order[i + 1] == x;
        }
      }
      assert order[0] !in t by {
        forall i | 0 <= i < |rest| ensures rest[i] != order[0] {
          assert rest[i] == order[i + 1];
        }
      }
    }
  }

  /** A search hit is an account whose name or username contains the query at
      some offset, ignoring ASCII case. */
  lemma SearchIff(users: map<string, User>, order: seq<string>, query: string, u: User)
    requires Enumerates(users, order)
    ensures u in FilteredUsers(users, order, query) <==>
              && (exists k :: k in users && users[k] == u)
              && (|| (exists i: nat :: JsString.OccursAt(JsString.Lower(u.name), JsString.Lower(query), i))
                  || (exists i: nat :: JsString.OccursAt(JsString.Lower(u.username), JsString.Lower(query), i)))
  {
    JsString.IncludesIff(JsString.Lower(u.name), JsString.Lower(query));
    JsString.IncludesIff(JsString.Lower(u.username), JsString.Lower(query));
  }

  /** An empty search lists every account, in enumeration order. */
  lemma EmptyQueryListsAll(users: map<string, User>, order: seq<string>)
    requires Enumerates(users, order)
    ensures FilteredUsers(users, order, "") == Values(users, order)
  {
    var vs := Values(users, order);
    forall i | 0 <= i < |vs| ensures Matches(vs[i], "") {
      JsString.IncludesEmpty(JsString.Lower(vs[i].name));
    }
    JsArray.FilterKeepsAll(vs, (u: User) => Matches(u, ""));
  }

  /** Searching for a lower-cased query gives the same results. */
  lemma SearchIgnoresQueryCase(users: map<string, User>, order: seq<string>, query: string)
    requires Enumerates(users, order)
    ensures FilteredUsers(users, order, JsString.Lower(query)) == FilteredUsers(users, order, query)
  {
    JsString.LowerIdempotent(query);
    JsArray.FilterSame(Values(users, order), (u: User) => Matches(u, JsString.Lower(query)), (u: User) => Matches(u, query));
  }

  // ---------------------------------------------------------------- tabs

  datatype Tab = Users | Finance | Promo | Reports | Ads

  /** The `count` the tab bar computes for each tab. */
  function TabCount(tab: Tab, signups: seq<SignUpRequest>, topUps: seq<TopUpRequest>,
                    withdraws: seq<WithdrawRequest>, pendingPromos: seq<Post>, reports: seq<ReportRecord>): nat
  {
    match tab
    case Users => |signups|
    case Finance => |topUps| + |withdraws|
    case Promo => |pendingPromos|
    case Reports => |reports|
    case Ads => 0
  }

  /** `count > 0 && <badge/>` */
  predicate ShowBadge(tab: Tab, signups: seq<SignUpRequest>, topUps: seq<TopUpRequest>,
                      withdraws: seq<WithdrawRequest>, pendingPromos: seq<Post>, reports: seq<ReportRecord>)
  {
    TabCount(tab, signups, topUps, withdraws, pendingPromos, reports) > 0
  }

  /** Each tab's badge shows exactly when its queue is non-empty, and the ads tab
      never has one. */
  lemma BadgeIff(tab: Tab, signups: seq<SignUpRequest>, topUps: seq<TopUpRequest>,
                 withdraws: seq<WithdrawRequest>, pendingPromos: seq<Post>, reports: seq<ReportRecord>)
    ensures ShowBadge(tab, signups, topUps, withdraws, pendingPromos, reports) <==>
              match tab
              case Users => signups != []
              case Finance => topUps != [] || withdraws != []
              case Promo => pendingPromos != []
              case Reports => reports != []
              case Ads => false
  {
  }

  /** After a spotlight request the promotion tab shows a badge. */
  lemma PromoteRequestShowsBadge(posts: seq<Post>, i: int, signups: seq<SignUpRequest>, topUps: seq<TopUpRequest>,
                                 withdraws: seq<WithdrawRequest>, reports: seq<ReportRecord>)
    requires 0 <= i < |posts|
    ensures ShowBadge(Promo, signups, topUps, withdraws, App.PendingPromos(App.PromoteRequest(posts, posts[i].id)), reports)
  {
    App.PromoteRequestIsPending(posts, i);
  }

  // ---------------------------------------------------------------- point adjustment

  /** The point-adjust panel of the selected account. */
  class AdjustPanel {
    var amountText: string
    var isAdjusting: bool

    constructor ()
      ensures amountText == "" && !isAdjusting
    {
      amountText := "";
      isAdjusting := false;
    }

    /** `disabled={isAdjustingPoints || !pointAdjustAmount}` */
    predicate AdjustEnabled()
      reads this
    {
      !isAdjusting && amountText != ""
    }

    method SetAmount(text: string)
      modifies this`amountText
      ensures amountText == text
    {
      amountText := text;
    }

    /** The button's handler: it raises the flag and calls `onUpdatePoints`. With
        a callback, the field is cleared and the flag lowered; the shell passes
        none, so the call throws and the panel stays busy with the amount kept. */
    method ClickAdjust(userId: string, hasCallback: bool) returns (call: Option<(string, string)>)
      requires AdjustEnabled()
      modifies this`amountText, this`isAdjusting
      ensures hasCallback ==> call == Some((userId, old(amountText))) && amountText == "" && !isAdjusting
      ensures !hasCallback ==> call.None? && amountText == old(amountText) && isAdjusting
      ensures !AdjustEnabled()
    {
      isAdjusting := true;
      if hasCallback {
        call := Some((userId, amountText));
        amountText := "";
        isAdjusting := false;
      } else {
        call := None;
      }
    }
  }
}
