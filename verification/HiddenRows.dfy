/** A hidden row looks exactly like an absent one: running a call on the database or on
    the part of it the caller can see gives the same answer and the same visible effect. */
module HiddenRows {
  import opened Wrappers
  import opened Filtering
  import opened Schema
  import opened Policies
  import opened Authz
  import opened Content
  import opened Social

  predicate CheckinVisible(db: Db, me: Option<UserId>, c: CheckinId)
    requires KnownViewer(db, me)
  {
    c in db.checkins && CanView(db, me, db.checkins[c].owner, db.checkins[c].visibility)
  }

  predicate ListVisible(db: Db, me: Option<UserId>, l: ListId)
    requires KnownViewer(db, me)
  {
    l in db.lists && CanView(db, me, db.lists[l].owner, db.lists[l].visibility)
  }

  function ShownCheckins(db: Db, me: Option<UserId>): set<CheckinId>
    requires KnownViewer(db, me)
  {
    set c <- db.checkins | CheckinVisible(db, me, c)
  }

  function ShownLists(db: Db, me: Option<UserId>): set<ListId>
    requires KnownViewer(db, me)
  {
    set l <- db.lists | ListVisible(db, me, l)
  }

  function ItemsWithin(items: seq<ListItem>, kept: set<ListId>): seq<ListItem> {
    if items == [] then []
    else (if items[0].list in kept then [items[0]] else []) + ItemsWithin(items[1..], kept)
  }

  /** Only these check-ins and lists, and what hangs off them. */
  function Restrict(db: Db, cs: set<CheckinId>, ls: set<ListId>): Db {
    db.(checkins := (map c <- db.checkins | c in cs :: db.checkins[c]),
        lists := (map l <- db.lists | l in ls :: db.lists[l]),
        items := ItemsWithin(db.items, ls),
        checkinLikes := (set p <- db.checkinLikes | p.1 in cs),
        listLikes := (set p <- db.listLikes | p.1 in ls),
        checkinBookmarks := (set p <- db.checkinBookmarks | p.1 in cs),
        listBookmarks := (set p <- db.listBookmarks | p.1 in ls))
  }

  /** The database with every check-in and list the caller may not view, and every row
      hanging off one, taken out. */
  function View(db: Db, me: Option<UserId>): Db
    requires KnownViewer(db, me)
  {
    Restrict(db, ShownCheckins(db, me), ShownLists(db, me))
  }

  /** The caller's side of an outcome. */
  function Seen(out: Outcome, me: UserId): Outcome
    requires out.Committed? ==> me in out.db.users
  {
    if out.Committed? then Committed(View(out.db, Some(me))) else out
  }

  lemma SelectCheckinIsView(db: Db, me: Option<UserId>, c: CheckinId)
    requires KnownViewer(db, me)
    ensures SelectCheckin(db, me, c) == SelectCheckin(View(db, me), me, c)
    ensures SelectCheckin(db, me, c).Some? <==> CheckinVisible(db, me, c)
  {
  }

  lemma SelectListIsView(db: Db, me: Option<UserId>, l: ListId)
    requires KnownViewer(db, me)
    ensures SelectList(db, me, l) == SelectList(View(db, me), me, l)
    ensures SelectList(db, me, l).Some? <==> ListVisible(db, me, l)
  {
  }

  /** What `session.get` returns is what survives in the view. */
  lemma SelectIsView(db: Db, me: Option<UserId>, c: CheckinId, l: ListId)
    requires KnownViewer(db, me)
    ensures SelectCheckin(db, me, c) == SelectCheckin(View(db, me), me, c)
    ensures SelectCheckin(db, me, c).Some? <==> CheckinVisible(db, me, c)
    ensures SelectList(db, me, l) == SelectList(View(db, me), me, l)
    ensures SelectList(db, me, l).Some? <==> ListVisible(db, me, l)
  {
    SelectCheckinIsView(db, me, c);
    SelectListIsView(db, me, l);
  }

  lemma GetHidesOrShows(db: Db, me: Option<UserId>, c: CheckinId, l: ListId)
    requires KnownViewer(db, me)
    ensures GetCheckin(db, me, c) == GetCheckin(View(db, me), me, c)
    ensures GetList(db, me, l) == GetList(View(db, me), me, l)
    ensures GetCheckin(db, me, c).Found? <==> CheckinVisible(db, me, c) && !db.checkins[c].deleted
    ensures GetList(db, me, l).Found? <==> ListVisible(db, me, l)
  {
    SelectIsView(db, me, c, l);
  }

  // --- writes commute with restricting ------------------------------------------

  lemma CheckinWriteCommutes(db: Db, cs: set<CheckinId>, ls: set<ListId>, c: CheckinId, row: Checkin)
    requires c in cs && c in db.checkins
    ensures Restrict(db.(checkins := db.checkins[c := row]), cs, ls)
            == var v := Restrict(db, cs, ls); v.(checkins := v.checkins[c := row])
  {
  }

  lemma ListWriteCommutes(db: Db, cs: set<CheckinId>, ls: set<ListId>, l: ListId, row: VenueList)
    requires l in ls && l in db.lists
    ensures Restrict(db.(lists := db.lists[l := row]), cs, ls)
            == var v := Restrict(db, cs, ls); v.(lists := v.lists[l := row])
  {
  }

  lemma OutsideCons(x: ListItem, items: seq<ListItem>, gone: set<ListId>)
    ensures ItemsOutside([x] + items, gone) == (if x.list in gone then [] else [x]) + ItemsOutside(items, gone)
  {
  }

  lemma WithinCons(x: ListItem, items: seq<ListItem>, kept: set<ListId>)
    ensures ItemsWithin([x] + items, kept) == (if x.list in kept then [x] else []) + ItemsWithin(items, kept)
  {
  }

  lemma {:induction false} ItemsCommute(items: seq<ListItem>, ls: set<ListId>, gone: set<ListId>)
    ensures ItemsWithin(ItemsOutside(items, gone), ls - gone) == ItemsOutside(ItemsWithin(items, ls), gone)
  {
    if items != [] {
      ItemsCommute(items[1..], ls, gone);
      var x, kept, within := items[0], ItemsOutside(items[1..], gone), ItemsWithin(items[1..], ls);
      assert ItemsOutside(items, gone) == if x.list in gone then kept else [x] + kept;
      assert ItemsWithin(items, ls) == if x.list in ls then [x] + within else within;
      WithinCons(x, kept, ls - gone);
      OutsideCons(x, within, gone);
    }
  }

  lemma ListDeleteCommutes(db: Db, cs: set<CheckinId>, ls: set<ListId>, gone: set<ListId>)
    ensures Restrict(WithoutLists(db, gone), cs, ls - gone) == WithoutLists(Restrict(db, cs, ls), gone)
  {
    ItemsCommute(db.items, ls, gone);
  }

  lemma CheckinReactionCommutes(db: Db, cs: set<CheckinId>, ls: set<ListId>, u: UserId, c: CheckinId)
    requires c in cs
    ensures var v := Restrict(db, cs, ls);
            && Restrict(db.(checkinLikes := db.checkinLikes + {(u, c)}), cs, ls)
               == v.(checkinLikes := v.checkinLikes + {(u, c)})
            && Restrict(db.(checkinBookmarks := db.checkinBookmarks + {(u, c)}), cs, ls)
               == v.(checkinBookmarks := v.checkinBookmarks + {(u, c)})
  {
  }

  lemma ListReactionCommutes(db: Db, cs: set<CheckinId>, ls: set<ListId>, u: UserId, l: ListId)
    requires l in ls
    ensures var v := Restrict(db, cs, ls);
            && Restrict(db.(listLikes := db.listLikes + {(u, l)}), cs, ls)
               == v.(listLikes := v.listLikes + {(u, l)})
            && Restrict(db.(listBookmarks := db.listBookmarks + {(u, l)}), cs, ls)
               == v.(listBookmarks := v.listBookmarks + {(u, l)})
  {
  }

  // --- calls that write ----------------------------------------------------------

  /** A write that keeps every owner, tier and access rule the caller is judged by keeps
      what the caller sees. */
  lemma SameRows(db: Db, d: Db, me: UserId)
    requires me in db.users && d.users == db.users && d.blocks == db.blocks && d.closeFriends == db.closeFriends
    requires d.checkins.Keys == db.checkins.Keys && d.lists.Keys == db.lists.Keys
    requires forall c <- db.checkins :: CheckinVisible(d, Some(me), c) == CheckinVisible(db, Some(me), c)
    requires forall l <- db.lists :: ListVisible(d, Some(me), l) == ListVisible(db, Some(me), l)
    ensures ShownCheckins(d, Some(me)) == ShownCheckins(db, Some(me)) && ShownLists(d, Some(me)) == ShownLists(db, Some(me))
  {
  }

  /** An owner's or admin's rewrite of a row is the same rewrite of their view. */
  lemma CheckinRewriteInView(db: Db, me: UserId, c: CheckinId, row: Checkin)
    requires me in db.users && c in db.checkins && row.owner == db.checkins[c].owner && OwnsOrAdmin(db, me, row.owner)
    ensures View(db.(checkins := db.checkins[c := row]), Some(me))
            == var v := View(db, Some(me)); v.(checkins := v.checkins[c := row])
  {
    SameRows(db, db.(checkins := db.checkins[c := row]), me);
    CheckinWriteCommutes(db, ShownCheckins(db, Some(me)), ShownLists(db, Some(me)), c, row);
  }

  lemma ListRewriteInView(db: Db, me: UserId, l: ListId, row: VenueList)
    requires me in db.users && l in db.lists && row.owner == db.lists[l].owner && OwnsOrAdmin(db, me, row.owner)
    ensures View(db.(lists := db.lists[l := row]), Some(me))
            == var v := View(db, Some(me)); v.(lists := v.lists[l := row])
  {
    SameRows(db, db.(lists := db.lists[l := row]), me);
    ListWriteCommutes(db, ShownCheckins(db, Some(me)), ShownLists(db, Some(me)), l, row);
  }

  lemma ReactionInView(db: Db, me: UserId, c: CheckinId)
    requires me in db.users && CheckinVisible(db, Some(me), c)
    ensures var v := View(db, Some(me));
            && View(db.(checkinLikes := db.checkinLikes + {(me, c)}), Some(me))
               == v.(checkinLikes := v.checkinLikes + {(me, c)})
            && View(db.(checkinBookmarks := db.checkinBookmarks + {(me, c)}), Some(me))
               == v.(checkinBookmarks := v.checkinBookmarks + {(me, c)})
  {
    SameRows(db, db.(checkinLikes := db.checkinLikes + {(me, c)}), me);
    SameRows(db, db.(checkinBookmarks := db.checkinBookmarks + {(me, c)}), me);
    CheckinReactionCommutes(db, ShownCheckins(db, Some(me)), ShownLists(db, Some(me)), me, c);
  }

  lemma ListReactionInView(db: Db, me: UserId, l: ListId)
    requires me in db.users && ListVisible(db, Some(me), l)
    ensures var v := View(db, Some(me));
            && View(db.(listLikes := db.listLikes + {(me, l)}), Some(me))
               == v.(listLikes := v.listLikes + {(me, l)})
            && View(db.(listBookmarks := db.listBookmarks + {(me, l)}), Some(me))
               == v.(listBookmarks := v.listBookmarks + {(me, l)})
  {
    SameRows(db, db.(listLikes := db.listLikes + {(me, l)}), me);
    SameRows(db, db.(listBookmarks := db.listBookmarks + {(me, l)}), me);
    ListReactionCommutes(db, ShownCheckins(db, Some(me)), ShownLists(db, Some(me)), me, l);
  }

  lemma NotifyInView(db: Db, me: UserId, id: NotificationId, n: Notification)
    requires me in db.users
    ensures var out := NotifyAndCommit(db, Some(me), id, n);
            && (out.Committed? ==> me in out.db.users)
            && Seen(out, me) == NotifyAndCommit(View(db, Some(me)), Some(me), id, n)
  {
    var d := db.(notifications := db.notifications[id := n]);
    SameRows(db, d, me);
  }

  lemma LikeRulesUnchanged(db: Db, me: UserId, c: CheckinId)
    requires me in db.users && CheckinVisible(db, Some(me), c)
    ensures SeesCheckinLike(View(db, Some(me)), Some(me), me, c) == SeesCheckinLike(db, Some(me), me, c)
    ensures CheckinLikesInsert(View(db, Some(me)), Some(me), me, c) == CheckinLikesInsert(db, Some(me), me, c)
  {
  }

  lemma ListLikeRulesUnchanged(db: Db, me: UserId, l: ListId)
    requires me in db.users && ListVisible(db, Some(me), l)
    ensures SeesListLike(View(db, Some(me)), Some(me), me, l) == SeesListLike(db, Some(me), me, l)
    ensures ListLikesInsert(View(db, Some(me)), Some(me), me, l) == ListLikesInsert(db, Some(me), me, l)
  {
  }

  lemma UpdateCheckinIsBlind(db: Db, me: UserId, c: CheckinId, shown: Option<Visibility>, text: Option<string>)
    requires me in db.users
    ensures var out := UpdateCheckin(db, me, c, shown, text);
            && (out.Committed? ==> me in out.db.users)
            && Seen(out, me) == UpdateCheckin(View(db, Some(me)), me, c, shown, text)
            && (out == Raised(NotCheckinOwner) ==> CheckinVisible(db, Some(me), c))
  {
    SelectIsView(db, Some(me), c, 0);
    var out := UpdateCheckin(db, me, c, shown, text);
    if out.Committed? { CheckinRewriteInView(db, me, c, out.db.checkins[c]); }
  }

  lemma SoftDeleteIsBlind(db: Db, me: UserId, c: CheckinId)
    requires me in db.users
    ensures var out := SoftDeleteCheckin(db, me, c);
            && (out.Committed? ==> me in out.db.users)
            && Seen(out, me) == SoftDeleteCheckin(View(db, Some(me)), me, c)
            && (out == Raised(NotCheckinOwner) ==> CheckinVisible(db, Some(me), c))
  {
    SelectIsView(db, Some(me), c, 0);
    var out := SoftDeleteCheckin(db, me, c);
    if out.Committed? { CheckinRewriteInView(db, me, c, out.db.checkins[c]); }
  }

  lemma UpdateListIsBlind(db: Db, me: UserId, l: ListId, shown: Option<Visibility>, text: Option<string>)
    requires me in db.users
    ensures var out := UpdateList(db, me, l, shown, text);
            && (out.Committed? ==> me in out.db.users)
            && Seen(out, me) == UpdateList(View(db, Some(me)), me, l, shown, text)
            && (out == Raised(NotListOwner) ==> ListVisible(db, Some(me), l))
  {
    SelectIsView(db, Some(me), 0, l);
    var out := UpdateList(db, me, l, shown, text);
    if out.Committed? { ListRewriteInView(db, me, l, out.db.lists[l]); }
  }

  lemma DeleteListIsBlind(db: Db, me: UserId, l: ListId)
    requires me in db.users
    ensures var out := DeleteList(db, me, l);
            && (out.Committed? ==> me in out.db.users)
            && Seen(out, me) == DeleteList(View(db, Some(me)), me, l)
            && (out == Raised(NotListOwner) ==> ListVisible(db, Some(me), l))
  {
    SelectIsView(db, Some(me), 0, l);
    var out := DeleteList(db, me, l);
    if out.Committed? {
      assert ShownCheckins(out.db, Some(me)) == ShownCheckins(db, Some(me));
      assert ShownLists(out.db, Some(me)) == ShownLists(db, Some(me)) - {l};
      ListDeleteCommutes(db, ShownCheckins(db, Some(me)), ShownLists(db, Some(me)), {l});
    }
  }

  lemma LikeCheckinIsBlind(db: Db, me: UserId, c: CheckinId, id: NotificationId)
    requires me in db.users
    ensures var out := LikeCheckin(db, me, c, id);
            && (out.Committed? ==> me in out.db.users)
            && Seen(out, me) == LikeCheckin(View(db, Some(me)), me, c, id)
  {
    GetHidesOrShows(db, Some(me), c, 0);
    if GetCheckin(db, Some(me), c).Found? {
      LikeRulesUnchanged(db, me, c);
      ReactionInView(db, me, c);
      NotifyInView(db.(checkinLikes := db.checkinLikes + {(me, c)}), me, id,
                   Notification(db.checkins[c].owner, Some(me), CheckinTarget(c), false));
    }
  }

  lemma LikeListIsBlind(db: Db, me: UserId, l: ListId, id: NotificationId)
    requires me in db.users
    ensures var out := LikeList(db, me, l, id);
            && (out.Committed? ==> me in out.db.users)
            && Seen(out, me) == LikeList(View(db, Some(me)), me, l, id)
  {
    GetHidesOrShows(db, Some(me), 0, l);
    if GetList(db, Some(me), l).Found? {
      ListLikeRulesUnchanged(db, me, l);
      ListReactionInView(db, me, l);
      NotifyInView(db.(listLikes := db.listLikes + {(me, l)}), me, id,
                   Notification(db.lists[l].owner, Some(me), ListTarget(l), false));
    }
  }

  lemma BookmarkCheckinIsBlind(db: Db, me: UserId, c: CheckinId)
    requires me in db.users
    ensures var out := BookmarkCheckin(db, me, c);
            && (out.Committed? ==> me in out.db.users)
            && Seen(out, me) == BookmarkCheckin(View(db, Some(me)), me, c)
  {
    GetHidesOrShows(db, Some(me), c, 0);
    if GetCheckin(db, Some(me), c).Found? {
      LikeRulesUnchanged(db, me, c);
      ReactionInView(db, me, c);
    }
  }

  lemma BookmarkListIsBlind(db: Db, me: UserId, l: ListId)
    requires me in db.users
    ensures var out := BookmarkList(db, me, l);
            && (out.Committed? ==> me in out.db.users)
            && Seen(out, me) == BookmarkList(View(db, Some(me)), me, l)
  {
    GetHidesOrShows(db, Some(me), 0, l);
    if GetList(db, Some(me), l).Found? {
      ListLikeRulesUnchanged(db, me, l);
      ListReactionInView(db, me, l);
    }
  }

  lemma UnlikeCheckinIsBlind(db: Db, me: UserId, c: CheckinId)
    requires me in db.users
    ensures var out := UnlikeCheckin(db, me, c);
            && (out.Committed? ==> me in out.db.users)
            && Seen(out, me) == UnlikeCheckin(View(db, Some(me)), me, c)
  {
    SelectIsView(db, Some(me), c, 0);
    var d := db.(checkinLikes := db.checkinLikes - {(me, c)});
    SameRows(db, d, me);
    assert View(d, Some(me)).checkinLikes == View(db, Some(me)).checkinLikes - {(me, c)};
  }

  lemma UnlikeListIsBlind(db: Db, me: UserId, l: ListId)
    requires me in db.users
    ensures var out := UnlikeList(db, me, l);
            && (out.Committed? ==> me in out.db.users)
            && Seen(out, me) == UnlikeList(View(db, Some(me)), me, l)
  {
    SelectIsView(db, Some(me), 0, l);
    var d := db.(listLikes := db.listLikes - {(me, l)});
    SameRows(db, d, me);
    assert View(d, Some(me)).listLikes == View(db, Some(me)).listLikes - {(me, l)};
  }

  // --- the theorem ----------------------------------------------------------------

  /** What a signed-in caller may try on something that might not be there. */
  datatype Attempt =
    | EditCheckin(c: CheckinId, shown: Option<Visibility>, text: Option<string>)
    | DropCheckin(c: CheckinId)
    | EditList(l: ListId, shown: Option<Visibility>, text: Option<string>)
    | DropList(l: ListId)
    | Like(c: CheckinId, id: NotificationId)
    | LikeOfList(l: ListId, id: NotificationId)
    | Unlike(c: CheckinId)
    | UnlikeOfList(l: ListId)
    | Bookmark(c: CheckinId)
    | BookmarkOfList(l: ListId)

  /** Reading is open to anyone, writing to signed-in callers. */
  datatype Probe = ReadCheckin(c: CheckinId) | ReadList(l: ListId) | Try(attempt: Attempt)

  datatype Answer =
    | GotCheckin(checkin: Fetched<Checkin>)
    | GotList(list: Fetched<VenueList>)
    | Effect(out: Outcome)
    | SignInFirst

  function Do(db: Db, me: UserId, a: Attempt): Outcome
    requires me in db.users
  {
    match a
    case EditCheckin(c, shown, text) => UpdateCheckin(db, me, c, shown, text)
    case DropCheckin(c) => SoftDeleteCheckin(db, me, c)
    case EditList(l, shown, text) => UpdateList(db, me, l, shown, text)
    case DropList(l) => DeleteList(db, me, l)
    case Like(c, id) => LikeCheckin(db, me, c, id)
    case LikeOfList(l, id) => LikeList(db, me, l, id)
    case Unlike(c) => UnlikeCheckin(db, me, c)
    case UnlikeOfList(l) => UnlikeList(db, me, l)
    case Bookmark(c) => BookmarkCheckin(db, me, c)
    case BookmarkOfList(l) => BookmarkList(db, me, l)
  }

  /** The caller's answer, with the effect as far as the caller can see it. */
  function Ask(db: Db, me: Option<UserId>, p: Probe): Answer
    requires KnownViewer(db, me)
  {
    match p
    case ReadCheckin(c) => GotCheckin(GetCheckin(db, me, c))
    case ReadList(l) => GotList(GetList(db, me, l))
    case Try(a) =>
      if me.None? then SignInFirst
      else
        var out := Do(db, me.value, a);
        Effect(if out.Committed? && me.value in out.db.users then Seen(out, me.value) else out)
  }

  /** What a probe answers is a function of the view alone. */
  function AskView(v: Db, me: Option<UserId>, p: Probe): Answer
    requires KnownViewer(v, me)
  {
    match p
    case ReadCheckin(c) => GotCheckin(GetCheckin(v, me, c))
    case ReadList(l) => GotList(GetList(v, me, l))
    case Try(a) => if me.None? then SignInFirst else Effect(Do(v, me.value, a))
  }

  lemma DoIsBlind(db: Db, me: UserId, a: Attempt)
    requires me in db.users
    ensures var out := Do(db, me, a);
            && (out.Committed? ==> me in out.db.users)
            && Seen(out, me) == Do(View(db, Some(me)), me, a)
  {
    match a {
      case EditCheckin(c, shown, text) => UpdateCheckinIsBlind(db, me, c, shown, text);
      case DropCheckin(c) => SoftDeleteIsBlind(db, me, c);
      case EditList(l, shown, text) => UpdateListIsBlind(db, me, l, shown, text);
      case DropList(l) => DeleteListIsBlind(db, me, l);
      case Like(c, id) => LikeCheckinIsBlind(db, me, c, id);
      case LikeOfList(l, id) => LikeListIsBlind(db, me, l, id);
      case Unlike(c) => UnlikeCheckinIsBlind(db, me, c);
      case UnlikeOfList(l) => UnlikeListIsBlind(db, me, l);
      case Bookmark(c) => BookmarkCheckinIsBlind(db, me, c);
      case BookmarkOfList(l) => BookmarkListIsBlind(db, me, l);
    }
  }

  lemma AskIsBlind(db: Db, me: Option<UserId>, p: Probe)
    requires KnownViewer(db, me)
    ensures Ask(db, me, p) == AskView(View(db, me), me, p)
  {
    match p {
      case ReadCheckin(c) => GetHidesOrShows(db, me, c, 0);
      case ReadList(l) => GetHidesOrShows(db, me, 0, l);
      case Try(a) => if me.Some? { DoIsBlind(db, me.value, a); }
    }
  }

  /** Two states that differ only in rows the caller cannot view answer every probe alike,
      whether the caller is anonymous or signed in. */
  lemma HiddenEqualsAbsent(db: Db, other: Db, me: Option<UserId>, p: Probe)
    requires KnownViewer(db, me) && KnownViewer(other, me) && View(db, me) == View(other, me)
    ensures Ask(db, me, p) == Ask(other, me, p)
  {
    AskIsBlind(db, me, p);
    AskIsBlind(other, me, p);
  }

  // --- what the view is ------------------------------------------------------------

  function OnShownList(db: Db, me: Option<UserId>): ListItem -> bool
    requires KnownViewer(db, me)
  {
    (i: ListItem) => i.list in ShownLists(db, me)
  }

  lemma {:induction false} WithinIsKept(items: seq<ListItem>, db: Db, me: Option<UserId>)
    requires KnownViewer(db, me)
    ensures ItemsWithin(items, ShownLists(db, me)) == Kept(items, OnShownList(db, me))
  {
    if items != [] { WithinIsKept(items[1..], db, me); }
  }

  /** The view holds exactly the check-ins and lists `can_view` admits and what hangs off
      them, column for column, and every other table whole: no visible row is lost in it and
      no hidden one kept. */
  lemma ViewIsWhatCanBeSeen(db: Db, me: Option<UserId>)
    requires KnownViewer(db, me)
    ensures var v := View(db, me);
            && v == db.(checkins := v.checkins, lists := v.lists, items := v.items,
                        checkinLikes := v.checkinLikes, listLikes := v.listLikes,
                        checkinBookmarks := v.checkinBookmarks, listBookmarks := v.listBookmarks)
            && (forall c :: c in v.checkins <==>
                  c in db.checkins && CanView(db, me, db.checkins[c].owner, db.checkins[c].visibility))
            && (forall l :: l in v.lists <==>
                  l in db.lists && CanView(db, me, db.lists[l].owner, db.lists[l].visibility))
            && (forall c <- v.checkins :: v.checkins[c] == db.checkins[c])
            && (forall l <- v.lists :: v.lists[l] == db.lists[l])
            && IsFiltered(db.items, OnShownList(db, me), v.items)
            && (forall p :: p in v.checkinLikes <==> p in db.checkinLikes && p.1 in v.checkins)
            && (forall p :: p in v.listLikes <==> p in db.listLikes && p.1 in v.lists)
            && (forall p :: p in v.checkinBookmarks <==> p in db.checkinBookmarks && p.1 in v.checkins)
            && (forall p :: p in v.listBookmarks <==> p in db.listBookmarks && p.1 in v.lists)
  {
    WithinIsKept(db.items, db, me);
    KeptIsFiltered(db.items, OnShownList(db, me));
  }

  /** A check-in or list the caller may not view could as well not be there: adding one to
      any state leaves every answer as it was. */
  lemma AddingHiddenCheckinChangesNothing(db: Db, me: Option<UserId>, c: CheckinId, row: Checkin, p: Probe)
    requires KnownViewer(db, me) && c !in db.checkins && !CanView(db, me, row.owner, row.visibility)
    requires forall r <- db.checkinLikes + db.checkinBookmarks :: r.1 != c
    ensures Ask(db.(checkins := db.checkins[c := row]), me, p) == Ask(db, me, p)
  {
    var d := db.(checkins := db.checkins[c := row]);
    assert ShownCheckins(d, me) == ShownCheckins(db, me);
    assert ShownLists(d, me) == ShownLists(db, me);
    assert View(d, me).checkins == View(db, me).checkins;
    HiddenEqualsAbsent(d, db, me, p);
  }

  lemma AddingHiddenListChangesNothing(db: Db, me: Option<UserId>, l: ListId, row: VenueList, p: Probe)
    requires KnownViewer(db, me) && l !in db.lists && !CanView(db, me, row.owner, row.visibility)
    requires forall r <- db.listLikes + db.listBookmarks :: r.1 != l
    ensures Ask(db.(lists := db.lists[l := row]), me, p) == Ask(db, me, p)
  {
    var d := db.(lists := db.lists[l := row]);
    assert ShownCheckins(d, me) == ShownCheckins(db, me);
    assert ShownLists(d, me) == ShownLists(db, me);
    assert View(d, me).lists == View(db, me).lists;
    HiddenEqualsAbsent(d, db, me, p);
  }
}
