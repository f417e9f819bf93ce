/** The records of the application's data model (types.ts), as value types.
    Dates are milliseconds since the epoch; an optional field is an `Option`,
    except optional boolean flags, which the code only ever tests for
    truthiness and which are therefore `bool` with "absent" read as `false`. */
module Types {

  datatype Option<+T> = None | Some(value: T) {
    function GetOr(default: T): T {
      match this
      case Some(v) => v
      case None => default
    }
  }

  datatype Status = Pending | Approved | Rejected

  /** A report's `'pending' | 'resolved'`: `Open` stands for `'pending'`. */
  datatype ReportStatus = Open | Resolved

  datatype AdPosition = Top | Middle | Bottom

  /** Balances are exact reals: top-ups and gifts move whole points, but a view
      credits the fractional view rate. */
  datatype User = User(
    id: string,
    name: string,
    avatar: string,
    username: string,
    password: Option<string>,
    bio: string,
    waNumber: Option<string>,
    email: Option<string>,
    address: Option<string>,
    followersCount: int,
    followingCount: int,
    giftBalance: real,
    isAdmin: bool,
    status: Option<Status>)

  /** What `{ ...undefined, giftBalance: b }` leaves behind for an account that is
      not in the table: every field but the balance at its empty value. */
  const BlankUser: User :=
    User("", "", "", "", None, "", None, None, None, 0, 0, 0.0, false, None)

  datatype Comment = Comment(id: string, userId: string, userName: string, text: string, timestamp: int)

  datatype GiftStat = GiftStat(count: int, icon: string)

  datatype Post = Post(
    id: string,
    userId: string,
    title: string,
    content: string,
    caption: string,
    likes: int,
    comments: seq<Comment>,
    shares: int,
    gifts: int,
    giftStats: Option<map<string, GiftStat>>,
    views: int,
    timestamp: int,
    isLiked: bool,
    isPromoted: bool,
    promotedUntil: Option<int>,
    isPendingPromotion: bool)

  datatype TopUpRequest = TopUpRequest(
    id: string, userId: string, userName: string, points: int, price: int,
    status: Status, timestamp: int)

  /** `payoutMethod` is the source's `method` field (a reserved word here). */
  datatype WithdrawRequest = WithdrawRequest(
    id: string, userId: string, userName: string, amount: real, payoutMethod: string,
    account: string, status: Status, timestamp: int)

  datatype ReportRecord = ReportRecord(
    id: string, postId: string, postTitle: string, reporterName: string,
    reason: string, status: ReportStatus, timestamp: int)

  datatype SignUpRequest = SignUpRequest(
    id: string, name: string, username: string, password: Option<string>,
    avatar: string, bio: string, waNumber: string, email: string, address: string,
    status: Status, timestamp: int)

  datatype Advertisement = Advertisement(
    id: string, title: string, description: string, imageUrl: Option<string>,
    embedCode: Option<string>, link: Option<string>, position: AdPosition,
    isActive: bool)
}
