/** The pages' own access rules (the admin page and the player page), and the
    admin page's table search filter and delete-confirmation dialog that holds
    one pending action. */
module Dashboard {
  import opened Basics
  import opened Text
  import opened Store
  import opened Auth

  // ------------------------------------------------------------ access

  /** What the `/api/auth/me` call gave the page: it failed (network error or a
      non-2xx status), or it answered with a user object, possibly missing. */
  datatype MeResult = Failed | Answered(user: Option<Profile>)

  /** How the page reads a `/api/auth/me` reply: `response.ok` is a 2xx
      status. Only replies of that route are read here, and it never answers
      with a session body, so any 2xx body other than an account gives no user. */
  function ReadMe(r: Reply): (m: MeResult)
    ensures m.Failed? <==> !(200 <= r.status < 300)
    ensures m.Answered? && m.user.Some? ==> r.body == Account(m.user.value)
    ensures 200 <= r.status < 300 && r.body.Account? ==> m == Answered(Some(r.body.user))
    ensures 200 <= r.status < 300 && !r.body.Account? ==> m == Answered(None)
  {
    if !(200 <= r.status < 300) then Failed
    else if r.body.Account? then Answered(Some(r.body.user))
    else Answered(None)
  }

  /** Where `checkAuth` leaves the browser. */
  datatype Access = ToIndex(tokenRemoved: bool) | ToHome | Stay

  /** `checkAuth`: without a stored token (or with an empty one) go to the index
      page; when the lookup fails, or gives no user to read the role of, drop
      the token and go to the index page; a non-admin goes home; an admin stays. */
  function CheckAuth(token: Option<string>, me: MeResult): (a: Access)
    ensures a == Stay <==> token.Some? && token.value != "" && me.Answered? && me.user.Some? && me.user.value.role == Admin
    ensures a == ToIndex(false) <==> token.None? || token.value == ""
    ensures a == ToIndex(true) <==> token.Some? && token.value != "" && (me.Failed? || me.user.None?)
    ensures a == ToHome <==> token.Some? && token.value != "" && me.Answered? && me.user.Some? && me.user.value.role != Admin
  {
    if token.None? || token.value == "" then ToIndex(false)
    else match me
      case Failed => ToIndex(true)
      case Answered(None) => ToIndex(true)
      case Answered(Some(u)) => if u.role != Admin then ToHome else Stay
  }

  /** End to end with the server: the page keeps a visitor only when the
      account their token names is stored with the admin role, whatever role
      the token itself claims. */
  lemma StayOnlyForStoredAdmins(db: Db, token: string, verify: string -> Option<Claims>)
    requires CheckAuth(Some(token), ReadMe(Me(db, Some("Bearer " + token), verify))) == Stay
    ensures Authenticate(Some("Bearer " + token), verify).Admit?
    ensures exists u ::
      u in db.users && u.id == Authenticate(Some("Bearer " + token), verify).user.id && u.role == Admin
  {
  }

  /** Where the player page's `checkAuth` leaves the browser: back to the
      index page, or on the page with the upload and admin buttons shown or
      not. */
  datatype HomeAccess = Leave(tokenRemoved: bool) | ShowHome(uploadButton: bool, adminButton: bool)

  /** The player page's `checkAuth`: without a token go to the index page;
      when the lookup fails, or gives no user to read, drop the token and go
      to the index page; otherwise stay, offering upload to artists and admins
      and the admin page to admins. */
  function HomeCheckAuth(token: Option<string>, me: MeResult): (a: HomeAccess)
    ensures a == Leave(false) <==> token.None? || token.value == ""
    ensures a == Leave(true) <==> token.Some? && token.value != "" && (me.Failed? || me.user.None?)
    ensures a.ShowHome? <==> token.Some? && token.value != "" && me.Answered? && me.user.Some?
    ensures a.ShowHome? ==> (a.uploadButton <==> me.user.value.role in [Artist, Admin])
    ensures a.ShowHome? ==> (a.adminButton <==> me.user.value.role == Admin)
  {
    if token.None? || token.value == "" then Leave(false)
    else match me
      case Failed => Leave(true)
      case Answered(None) => Leave(true)
      case Answered(Some(u)) => ShowHome(u.role == Artist || u.role == Admin, u.role == Admin)
  }

  /** The two pages agree: the player page offers the admin button exactly
      when the admin page would keep the visitor, and both send a visitor
      away, dropping the token or not, in the same cases. */
  lemma PagesAgree(token: Option<string>, me: MeResult)
    ensures HomeCheckAuth(token, me).ShowHome? && HomeCheckAuth(token, me).adminButton <==>
      CheckAuth(token, me) == Stay
    ensures HomeCheckAuth(token, me).Leave? <==> CheckAuth(token, me).ToIndex?
    ensures HomeCheckAuth(token, me).Leave? ==>
      HomeCheckAuth(token, me).tokenRemoved == CheckAuth(token, me).tokenRemoved
  {
  }

  // ------------------------------------------------------------ table filter

  /** A table row: its text and whether it is displayed. */
  datatype Row = Row(text: string, shown: bool)

  /** `filterTable`: a row is shown exactly when its lower-cased text contains
      the lower-cased query; rows are hidden, never removed. */
  function FilterTable(rows: seq<Row>, query: string): (r: seq<Row>)
    ensures |r| == |rows|
    ensures forall i :: 0 <= i < |rows| ==> r[i].text == rows[i].text
    ensures forall i :: 0 <= i < |rows| ==>
      (r[i].shown <==> exists k :: OccursAt(Lower(rows[i].text), Lower(query), k))
  {
    seq(|rows|, i requires 0 <= i < |rows| => Row(rows[i].text, Includes(Lower(rows[i].text), Lower(query))))
  }

  /** An empty query shows every row. */
  lemma EmptyQueryShowsAll(rows: seq<Row>)
    ensures forall i :: 0 <= i < |rows| ==> FilterTable(rows, "")[i].shown
  {
  }

  /** The filter ignores letter case in the query, and filtering again with the
      same query gives the same table. */
  lemma FilterIgnoresCase(rows: seq<Row>, query: string)
    ensures FilterTable(rows, Lower(query)) == FilterTable(rows, query)
    ensures FilterTable(FilterTable(rows, query), query) == FilterTable(rows, query)
  {
    LowerIdempotent(query);
  }

  /** A row whose text is the query, in any letter case, stays visible. */
  lemma RowMatchingQueryShown(rows: seq<Row>, i: int)
    requires 0 <= i < |rows|
    ensures FilterTable(rows, rows[i].text)[i].shown
  {
  }

  // ------------------------------------------------------------ delete dialog

  /** The confirmation dialog and its one pending action slot (`deleteCallback`). */
  datatype Dialog<A> = Dialog(open: bool, message: string, pending: Option<A>)

  /** `showDeleteModal`: opens the dialog with the message; the action replaces
      whatever was pending. */
  function ShowDeleteModal<A>(d: Dialog<A>, message: string, action: A): (r: Dialog<A>)
    ensures r.open && r.pending == Some(action) && r.message == message
  {
    Dialog(true, message, Some(action))
  }

  /** The confirm button: runs the pending action if there is one, then closes
      the dialog and empties the slot. The result lists the actions run. */
  function Confirm<A>(d: Dialog<A>): (r: (Dialog<A>, seq<A>))
    ensures !r.0.open && r.0.pending.None? && r.0.message == d.message
    ensures |r.1| <= 1
    ensures d.pending.Some? ==> r.1 == [d.pending.value]
    ensures d.pending.None? ==> r.1 == []
  {
    (d.(open := false, pending := None), if d.pending.Some? then [d.pending.value] else [])
  }

  /** The cancel button and the close button: close and empty the slot, running nothing. */
  function Dismiss<A>(d: Dialog<A>): (r: Dialog<A>)
    ensures !r.open && r.pending.None? && r.message == d.message
  {
    d.(open := false, pending := None)
  }

  datatype Click<A> = Show(message: string, action: A) | ConfirmButton | CancelButton | CloseButton

  /** A sequence of clicks on the dialog, and the actions that ran, in order.
      The last click decides the dialog: open with its action after a `Show`,
      closed and empty after any button. */
  function Clicks<A>(d: Dialog<A>, cs: seq<Click<A>>): (r: (Dialog<A>, seq<A>))
    ensures |cs| == 0 ==> r == (d, [])
    ensures |cs| > 0 && cs[|cs| - 1].Show? ==>
      r.0.open && r.0.pending == Some(cs[|cs| - 1].action) && r.0.message == cs[|cs| - 1].message
    ensures |cs| > 0 && !cs[|cs| - 1].Show? ==> !r.0.open && r.0.pending.None?
    decreases |cs|
  {
    if |cs| == 0 then (d, [])
    else
      var (d', ran) := match cs[0]
        case Show(m, a) => (ShowDeleteModal(d, m, a), [])
        case ConfirmButton => Confirm(d)
        case CancelButton => (Dismiss(d), [])
        case CloseButton => (Dismiss(d), []);
      var rest := Clicks(d', cs[1..]);
      (rest.0, ran + rest.1)
  }

  /** The number of `Show` clicks in `cs`. */
  function Shows<A>(cs: seq<Click<A>>): nat
    decreases |cs|
  {
    if |cs| == 0 then 0 else (if cs[0].Show? then 1 else 0) + Shows(cs[1..])
  }

  /** From any dialog, no action runs more often than it was shown: at most one
      run per `Show` (plus one for an action already pending), and every action
      that runs was shown or was already pending. */
  lemma {:induction false} EachShowRunsAtMostOnce<A>(d: Dialog<A>, cs: seq<Click<A>>)
    ensures |Clicks(d, cs).1| <= Shows(cs) + (if d.pending.Some? then 1 else 0)
    ensures forall a :: a in Clicks(d, cs).1 ==>
      (d.pending == Some(a)) || (exists i :: 0 <= i < |cs| && cs[i].Show? && cs[i].action == a)
    decreases |cs|
  {
    if |cs| > 0 {
      var c := cs[0];
      var d' := match c
        case Show(m, a) => ShowDeleteModal(d, m, a)
        case ConfirmButton => Confirm(d).0
        case CancelButton => Dismiss(d)
        case CloseButton => Dismiss(d);
      EachShowRunsAtMostOnce(d', cs[1..]);
      forall a | a in Clicks(d, cs).1
        ensures (d.pending == Some(a)) || (exists i :: 0 <= i < |cs| && cs[i].Show? && cs[i].action == a)
      {
        if a !in Clicks(d', cs[1..]).1 {
          assert c.ConfirmButton? && d.pending == Some(a);
        } else if d'.pending == Some(a) {
          if c.Show? {
            assert cs[0].Show? && cs[0].action == a;
          }
        } else {
          var i :| 0 <= i < |cs[1..]| && cs[1..][i].Show? && cs[1..][i].action == a;
          assert cs[i + 1] == cs[1..][i];
        }
      }
    }
  }
}
