/** Reading mentions: per comment, in bulk for a list of comments, and page by page for a user. */
module MentionQueries {
  import opened Schema
  import opened DatabaseModel

  datatype UserRow = UserRow(id: int, username: string, fullName: string)

  function RowOf(users: map<int, User>, u: int): UserRow
    requires u in users
  {
    UserRow(u, users[u].username, users[u].fullName)
  }

  // ----- one comment -----

  /** Ids strictly increase from row to row. */
  ghost predicate ById(rows: seq<UserRow>) {
    forall i, j :: 0 <= i < j < |rows| ==> rows[i].id < rows[j].id
  }

  /** The join of one comment's mention rows to users: these rows and no others, ORDER BY id. */
  ghost predicate IsMentionList(s: State, comment: int, rows: seq<UserRow>) {
    && ById(rows)
    && forall row :: row in rows <==>
         row.id in s.users && (comment, row.id) in s.mentions && row == RowOf(s.users, row.id)
  }

  lemma MemberFirst(a: seq<UserRow>, b: seq<UserRow>)
    requires ById(b) && a != [] && b != [] && a[0] in b
    ensures b[0].id <= a[0].id
  {
    var j :| 0 <= j < |b| && b[j] == a[0];
  }

  /** There is only one list of given rows with increasing ids. */
  lemma {:induction false} ByIdUnique(a: seq<UserRow>, b: seq<UserRow>)
    requires ById(a) && ById(b) && forall row :: row in a <==> row in b
    ensures a == b
    decreases |a|
  {
    if b != [] {
      assert b[0] in a;
    }
    if a != [] {
      assert a[0] in b;
      MemberFirst(a, b);
      MemberFirst(b, a);
      var j :| 0 <= j < |b| && b[j] == a[0];
      assert j == 0;
      SameTail(a, b);
      ByIdUnique(a[1..], b[1..]);
      assert a == [a[0]] + a[1..] && b == [b[0]] + b[1..];
    }
  }

  lemma InTail(a: seq<UserRow>, row: UserRow)
    requires ById(a) && a != []
    ensures row in a[1..] <==> row in a && row != a[0]
  {
    assert a == [a[0]] + a[1..];
    if row in a[1..] {
      var i :| 0 <= i < |a[1..]| && a[1..][i] == row;
      assert a[0].id < a[i + 1].id;
    }
  }

  lemma SameTail(a: seq<UserRow>, b: seq<UserRow>)
    requires ById(a) && ById(b) && a != [] && b != [] && a[0] == b[0] && forall row :: row in a <==> row in b
    ensures forall row :: row in a[1..] <==> row in b[1..]
  {
    forall row
      ensures row in a[1..] <==> row in b[1..]
    {
      InTail(a, row);
      InTail(b, row);
    }
  }

  /** Everybody asking for one comment's mentions gets the same list. */
  lemma MentionListUnique(s: State, comment: int, a: seq<UserRow>, b: seq<UserRow>)
    requires IsMentionList(s, comment, a) && IsMentionList(s, comment, b)
    ensures a == b
  {
    ByIdUnique(a, b);
  }

  /** The smallest member. */
  method Smallest(ids: set<int>) returns (least: int)
    requires exists x :: x in ids
    ensures least in ids && forall x :: x in ids ==> least <= x
  {
    least :| least in ids;
    var rest := ids - {least};
    while exists x :: x in rest
      invariant rest <= ids && least in ids
      invariant forall x :: x in ids && x !in rest ==> least <= x
      decreases rest
    {
      var x :| x in rest;
      rest := rest - {x};
      if x < least {
        least := x;
      }
    }
  }

  /** The users a comment's mention rows join to. */
  function Mentioned(s: State, comment: int): set<int> {
    set u | u in s.users && (comment, u) in s.mentions
  }

  method FindMentionedUsers(db: Database, comment: int) returns (rows: seq<UserRow>)
    ensures IsMentionList(db.Snapshot(), comment, rows)
    ensures forall i, j :: 0 <= i < j < |rows| ==> rows[i].id < rows[j].id
    ensures forall row :: row in rows <==>
              && row.id in db.users && (comment, row.id) in db.mentions
              && row.username == db.users[row.id].username && row.fullName == db.users[row.id].fullName
  {
    rows := [];
    var rest := Mentioned(db.Snapshot(), comment);
    while exists u :: u in rest
      invariant rest <= Mentioned(db.Snapshot(), comment)
      invariant ById(rows) && forall i, u :: 0 <= i < |rows| && u in rest ==> rows[i].id < u
      invariant forall row :: row in rows <==>
                  row.id in Mentioned(db.Snapshot(), comment) && row.id !in rest && row == RowOf(db.users, row.id)
      decreases rest
    {
      var u := Smallest(rest);
      rows := rows + [RowOf(db.users, u)];
      rest := rest - {u};
    }
  }

  // ----- many comments at once -----

  type Tagged = seq<(int, UserRow)>

  /** Earlier in ORDER BY comment_id, u.id. */
  predicate Before(a: (int, UserRow), b: (int, UserRow)) {
    a.0 < b.0 || (a.0 == b.0 && a.1.id < b.1.id)
  }

  ghost predicate InBulkOrder(rows: Tagged) {
    forall i, j :: 0 <= i < j < |rows| ==> Before(rows[i], rows[j])
  }

  /** The row joins a mention row of a listed comment to its user. */
  predicate Joins(s: State, ids: seq<int>, row: (int, UserRow)) {
    row.0 in ids && row.1.id in s.users && (row.0, row.1.id) in s.mentions && row.1 == RowOf(s.users, row.1.id)
  }

  /** The bulk join: these rows and no others, ORDER BY comment_id, u.id. */
  ghost predicate IsBulkResult(s: State, ids: seq<int>, rows: Tagged) {
    InBulkOrder(rows) && forall row :: row in rows <==> Joins(s, ids, row)
  }

  /** The first pair in the order of the bulk query. */
  method FirstPair(pairs: set<(int, int)>) returns (first: (int, int))
    requires exists p :: p in pairs
    ensures first in pairs
    ensures forall p :: p in pairs && p != first ==> first.0 < p.0 || (first.0 == p.0 && first.1 < p.1)
  {
    first :| first in pairs;
    var rest := pairs - {first};
    while exists p :: p in rest
      invariant rest <= pairs && first in pairs && first !in rest
      invariant forall p :: p in pairs && p !in rest && p != first ==>
                  first.0 < p.0 || (first.0 == p.0 && first.1 < p.1)
      decreases rest
    {
      var p :| p in rest;
      rest := rest - {p};
      if p.0 < first.0 || (p.0 == first.0 && p.1 < first.1) {
        first := p;
      }
    }
  }

  /** The mention rows the bulk query joins. */
  function JoinedPairs(s: State, ids: seq<int>): set<(int, int)> {
    set p | p in s.mentions && p.0 in ids && p.1 in s.users
  }

  method BulkQuery(db: Database, ids: seq<int>) returns (rows: Tagged)
    ensures IsBulkResult(db.Snapshot(), ids, rows)
    ensures forall i, j :: 0 <= i < j < |rows| ==>
              rows[i].0 < rows[j].0 || (rows[i].0 == rows[j].0 && rows[i].1.id < rows[j].1.id)
    ensures forall c, row :: (c, row) in rows <==>
              && c in ids && row.id in db.users && (c, row.id) in db.mentions
              && row.username == db.users[row.id].username && row.fullName == db.users[row.id].fullName
  {
    rows := [];
    ghost var s := db.Snapshot();
    var rest := JoinedPairs(db.Snapshot(), ids);
    while exists p :: p in rest
      invariant rest <= JoinedPairs(s, ids)
      invariant InBulkOrder(rows)
      invariant forall i, p :: 0 <= i < |rows| && p in rest ==>
                  rows[i].0 < p.0 || (rows[i].0 == p.0 && rows[i].1.id < p.1)
      invariant forall row :: row in rows <==> Joins(s, ids, row) && (row.0, row.1.id) !in rest
      decreases rest
    {
      var p := FirstPair(rest);
      rows := rows + [(p.0, RowOf(db.users, p.1))];
      rest := rest - {p};
    }
    forall row
      ensures row in rows <==> Joins(s, ids, row)
    {
      assert (row.0, row.1.id) !in rest;
    }
  }

  /** map.get(c) ?? [] */
  function Lookup(m: map<int, seq<UserRow>>, c: int): seq<UserRow> {
    if c in m then m[c] else []
  }

  /** The rows tagged with comment c, in order. */
  function Group(rows: Tagged, c: int): seq<UserRow> {
    if rows == [] then []
    else Group(rows[..|rows| - 1], c) + if rows[|rows| - 1].0 == c then [rows[|rows| - 1].1] else []
  }

  lemma {:induction false} GroupMembers(rows: Tagged, c: int)
    ensures forall row :: row in Group(rows, c) <==> (c, row) in rows
  {
    if rows != [] {
      var earlier, last := rows[..|rows| - 1], rows[|rows| - 1];
      GroupMembers(earlier, c);
      assert rows == earlier + [last];
      assert last == (last.0, last.1);
    }
  }

  lemma {:induction false} GroupById(rows: Tagged, c: int)
    requires InBulkOrder(rows)
    ensures ById(Group(rows, c))
  {
    if rows != [] {
      var earlier, last := rows[..|rows| - 1], rows[|rows| - 1];
      GroupById(earlier, c);
      GroupMembers(earlier, c);
      forall i | 0 <= i < |Group(earlier, c)| && last.0 == c
        ensures Group(earlier, c)[i].id < last.1.id
      {
        assert Group(earlier, c)[i] in Group(earlier, c);
        EarlierIsBefore(rows, (c, Group(earlier, c)[i]));
      }
    }
  }

  lemma EarlierIsBefore(rows: Tagged, row: (int, UserRow))
    requires InBulkOrder(rows) && rows != [] && row in rows[..|rows| - 1]
    ensures Before(row, rows[|rows| - 1])
  {
    var i :| 0 <= i < |rows| - 1 && rows[..|rows| - 1][i] == row;
  }

  /** The bulk rows of a listed comment are what its own query lists; other comments have none. */
  lemma GroupIsMentionList(s: State, ids: seq<int>, rows: Tagged, c: int)
    requires IsBulkResult(s, ids, rows)
    ensures if c in ids then IsMentionList(s, c, Group(rows, c)) else Group(rows, c) == []
  {
    GroupById(rows, c);
    GroupMembers(rows, c);
    if Group(rows, c) != [] {
      assert Group(rows, c)[0] in Group(rows, c);
      assert Joins(s, ids, (c, Group(rows, c)[0]));
    }
    if c in ids {
      forall row
        ensures row in Group(rows, c)
           <==> row.id in s.users && (c, row.id) in s.mentions && row == RowOf(s.users, row.id)
      {
        assert (c, row) in rows <==> Joins(s, ids, (c, row));
      }
    }
  }

  /** The map holds every group of the rows. */
  ghost predicate Grouped(m: map<int, seq<UserRow>>, rows: Tagged) {
    forall c :: Lookup(m, c) == Group(rows, c)
  }

  lemma GroupedStep(m: map<int, seq<UserRow>>, rows: Tagged, cid: int, row: UserRow)
    requires Grouped(m, rows)
    ensures Grouped(m[cid := Lookup(m, cid) + [row]], rows + [(cid, row)])
  {
    var m', rows' := m[cid := Lookup(m, cid) + [row]], rows + [(cid, row)];
    assert rows'[..|rows'| - 1] == rows;
    forall c
      ensures Lookup(m', c) == Group(rows', c)
    {
      assert Lookup(m, c) == Group(rows, c);
    }
  }

  /** One query and a grouping loop give every listed comment what its own query would. */
  method FindMentionedUsersForComments(db: Database, ids: seq<int>) returns (m: map<int, seq<UserRow>>)
    ensures forall c :: c in ids ==> IsMentionList(db.Snapshot(), c, Lookup(m, c))
    ensures forall c :: c !in ids ==> Lookup(m, c) == []
  {
    m := map[];
    if |ids| == 0 { return; }
    var rows := BulkQuery(db, ids);
    for i := 0 to |rows|
      invariant Grouped(m, rows[..i])
    {
      var (cid, row) := rows[i];
      GroupedStep(m, rows[..i], cid, row);
      assert rows[..i + 1] == rows[..i] + [(cid, row)];
      var list := Lookup(m, cid);
      m := m[cid := list + [row]];
    }
    assert rows[..|rows|] == rows;
    forall c
      ensures if c in ids then IsMentionList(db.Snapshot(), c, Lookup(m, c)) else Lookup(m, c) == []
    {
      assert Lookup(m, c) == Group(rows, c);
      GroupIsMentionList(db.Snapshot(), ids, rows, c);
    }
  }

  /** attachMentions: each comment of the list with the mentions its own query gives, whoever makes it. */
  method AttachMentions(db: Database, comments: seq<int>) returns (responses: seq<(int, seq<UserRow>)>)
    ensures |responses| == |comments|
    ensures forall i :: 0 <= i < |comments| ==>
              responses[i].0 == comments[i] && IsMentionList(db.Snapshot(), comments[i], responses[i].1)
    ensures forall i, rows :: 0 <= i < |comments| && IsMentionList(db.Snapshot(), comments[i], rows) ==>
              responses[i].1 == rows
  {
    responses := [];
    if |comments| == 0 { return; }
    var m := FindMentionedUsersForComments(db, comments);
    responses := seq(|comments|, i requires 0 <= i < |comments| => (comments[i], Lookup(m, comments[i])));
    forall i | 0 <= i < |comments|
      ensures IsMentionList(db.Snapshot(), comments[i], responses[i].1)
    {
      assert comments[i] in comments;
    }
    forall i, rows | 0 <= i < |comments| && IsMentionList(db.Snapshot(), comments[i], rows)
      ensures responses[i].1 == rows
    {
      MentionListUnique(db.Snapshot(), comments[i], responses[i].1, rows);
    }
  }

  // ----- page by page -----

  /** ORDER BY created_at DESC, id DESC. */
  predicate Newer(comments: map<int, Comment>, a: int, b: int)
    requires a in comments && b in comments
  {
    comments[a].createdAt > comments[b].createdAt || (comments[a].createdAt == comments[b].createdAt && a > b)
  }

  /** The comments with a mention row for the user. */
  function Mentioning(s: State, user: int): set<int> {
    set c | c in s.comments && (c, user) in s.mentions
  }

  /** Exactly the members, each once, newest first. */
  ghost predicate NewestFirst(comments: map<int, Comment>, list: seq<int>, members: set<int>) {
    && (forall c :: c in list <==> c in members)
    && (forall i :: 0 <= i < |list| ==> list[i] in comments)
    && (forall i, j :: 0 <= i < j < |list| ==> Newer(comments, list[i], list[j]))
  }

  lemma MemberOfBoth(a: seq<int>, b: seq<int>, members: set<int>)
    requires a != [] && forall c :: c in a <==> c in members
    requires forall c :: c in b <==> c in members
    ensures exists j :: 0 <= j < |b| && b[j] == a[0]
  {
    var x := a[0];
    assert x in a;
    assert x in members;
    assert x in b;
  }

  /** There is only one such list. */
  lemma {:induction false} NewestFirstUnique(comments: map<int, Comment>, a: seq<int>, b: seq<int>, members: set<int>)
    requires NewestFirst(comments, a, members) && NewestFirst(comments, b, members)
    ensures a == b
    decreases |a|
  {
    if b != [] {
      MemberOfBoth(b, a, members);
    }
    if a != [] {
      MemberOfBoth(a, b, members);
      var j :| 0 <= j < |b| && b[j] == a[0];
      var k :| 0 <= k < |a| && a[k] == b[0];
      assert a[0] == b[0];
      TailNewestFirst(comments, a, members);
      TailNewestFirst(comments, b, members);
      NewestFirstUnique(comments, a[1..], b[1..], members - {a[0]});
      assert a == [a[0]] + a[1..] && b == [b[0]] + b[1..];
    }
  }

  lemma TailNewestFirst(comments: map<int, Comment>, a: seq<int>, members: set<int>)
    requires NewestFirst(comments, a, members) && a != []
    ensures NewestFirst(comments, a[1..], members - {a[0]})
  {
    assert a == [a[0]] + a[1..];
    forall c
      ensures c in a[1..] <==> c in members - {a[0]}
    {
      if c in a[1..] {
        var i :| 0 <= i < |a[1..]| && a[1..][i] == c;
        assert Newer(comments, a[0], a[i + 1]);
      }
    }
  }

  /** The whole ordered result, before LIMIT and OFFSET. */
  method SelectMentioning(db: Database, user: int) returns (list: seq<int>)
    ensures NewestFirst(db.comments, list, Mentioning(db.Snapshot(), user))
  {
    list := [];
    var members := Mentioning(db.Snapshot(), user);
    var rest := members;
    while exists x :: x in rest
      invariant rest <= members
      invariant forall c :: c in list <==> c in members - rest
      invariant forall i :: 0 <= i < |list| ==> list[i] in db.comments
      invariant forall i, j :: 0 <= i < j < |list| ==> Newer(db.comments, list[i], list[j])
      invariant forall i, c :: 0 <= i < |list| && c in rest ==> Newer(db.comments, list[i], c)
      decreases rest
    {
      var c := NewestOf(db, rest);
      list := list + [c];
      rest := rest - {c};
    }
  }

  method NewestOf(db: Database, members: set<int>) returns (c: int)
    requires (exists x :: x in members) && members <= db.comments.Keys
    ensures c in members && forall d :: d in members && d != c ==> Newer(db.comments, c, d)
  {
    c :| c in members;
    var rest := members - {c};
    while exists x :: x in rest
      invariant rest <= members && c in members && c !in rest
      invariant forall d :: d in members && d !in rest && d != c ==> Newer(db.comments, c, d)
      decreases rest
    {
      var d :| d in rest;
      rest := rest - {d};
      if Newer(db.comments, d, c) {
        c := d;
      }
    }
  }

  function Clip(n: int, length: nat): nat {
    if n < 0 then 0 else if n > length then length else n
  }

  /** LIMIT pageSize OFFSET (page - 1) * pageSize. */
  function PageOf(list: seq<int>, page: nat, pageSize: nat): seq<int>
    requires page >= 1
  {
    var from, upTo := Clip((page - 1) * pageSize, |list|), Clip((page - 1) * pageSize + pageSize, |list|);
    if from <= upTo then list[from..upTo] else []
  }

  function Members(list: seq<int>): set<int> {
    set c | c in list
  }

  lemma {:induction false} PrefixSize(list: seq<int>, i: nat)
    requires i <= |list| && forall k, l :: 0 <= k < l < |list| ==> list[k] != list[l]
    ensures |Members(list[..i])| == i
  {
    if i == 0 {
      assert Members(list[..0]) == {};
    } else {
      PrefixSize(list, i - 1);
      assert list[..i] == list[..i - 1] + [list[i - 1]];
      assert Members(list[..i]) - {list[i - 1]} == Members(list[..i - 1]);
    }
  }

  /** The comments that mention the user and come before c: created later, or at the same time with a larger id. */
  ghost function Ahead(comments: map<int, Comment>, mentions: set<(int, int)>, user: int, c: int): set<int>
    requires c in comments
  {
    set d | d in comments && (d, user) in mentions
            && (comments[d].createdAt > comments[c].createdAt
                || (comments[d].createdAt == comments[c].createdAt && d > c))
  }

  /** The position in the list is the number of comments ahead. */
  lemma PositionIsAhead(s: State, user: int, list: seq<int>, i: nat)
    requires NewestFirst(s.comments, list, Mentioning(s, user)) && i < |list|
    ensures |Ahead(s.comments, s.mentions, user, list[i])| == i
  {
    NewestFirstDistinct(s.comments, list, Mentioning(s, user));
    PrefixSize(list, i);
    var ahead := Ahead(s.comments, s.mentions, user, list[i]);
    forall d | d in ahead
      ensures d in list[..i]
    {
      assert d in Mentioning(s, user);
      var j :| 0 <= j < |list| && list[j] == d;
      assert j < i;
      assert list[..i][j] == d;
    }
    forall j | 0 <= j < i
      ensures list[j] in ahead
    {
      assert Newer(s.comments, list[j], list[i]);
      assert list[j] in list;
    }
    assert ahead == Members(list[..i]);
  }

  /** What one page shows: the total is the number of comments that mention the user, and row k has
      (page - 1) * pageSize + k of them ahead. */
  ghost predicate IsPage(comments: map<int, Comment>, mentions: set<(int, int)>, user: int, offset: int,
                         pageSize: nat, rows: seq<int>, total: nat)
  {
    && total == |set c | c in comments && (c, user) in mentions|
    && |rows| == (if offset >= total then 0 else if total - offset < pageSize then total - offset else pageSize)
    && forall k :: 0 <= k < |rows| ==>
         && rows[k] in comments && (rows[k], user) in mentions
         && |Ahead(comments, mentions, user, rows[k])| == offset + k
  }

  lemma ListSize(comments: map<int, Comment>, list: seq<int>, members: set<int>)
    requires NewestFirst(comments, list, members)
    ensures |list| == |members|
  {
    NewestFirstDistinct(comments, list, members);
    PrefixSize(list, |list|);
    assert list[..|list|] == list;
    forall c
      ensures c in Members(list) <==> c in members
    {
      assert c in list <==> c in members;
    }
    assert Members(list) == members;
  }

  lemma PageIsSlice(s: State, user: int, list: seq<int>, page: nat, pageSize: nat)
    requires page >= 1 && NewestFirst(s.comments, list, Mentioning(s, user))
    ensures IsPage(s.comments, s.mentions, user, (page - 1) * pageSize, pageSize, PageOf(list, page, pageSize), |list|)
  {
    var offset, rows := (page - 1) * pageSize, PageOf(list, page, pageSize);
    assert offset >= 0;
    ListSize(s.comments, list, Mentioning(s, user));
    assert Mentioning(s, user) == set c | c in s.comments && (c, user) in s.mentions;
    forall k | 0 <= k < |rows|
      ensures rows[k] in s.comments && (rows[k], user) in s.mentions
              && |Ahead(s.comments, s.mentions, user, rows[k])| == offset + k
    {
      assert rows[k] == list[offset + k] && list[offset + k] in list;
      PositionIsAhead(s, user, list, offset + k);
    }
  }

  /** The rows of one page and the total the separate COUNT query answers. */
  method FindCommentsMentioning(db: Database, user: int, page: nat, pageSize: nat) returns (rows: seq<int>, total: nat)
    requires page >= 1 && pageSize >= 1
    requires forall p :: p in db.mentions ==> p.0 in db.comments
    ensures forall list :: NewestFirst(db.comments, list, Mentioning(db.Snapshot(), user)) ==>
      rows == PageOf(list, page, pageSize) && total == |list|
    ensures IsPage(db.comments, db.mentions, user, (page - 1) * pageSize, pageSize, rows, total)
  {
    ghost var s := db.Snapshot();
    var all := SelectMentioning(db, user);
    rows := PageOf(all, page, pageSize);
    var mine := set p | p in db.mentions && p.1 == user;
    total := |mine|;
    forall p | p in mine
      ensures p.0 in all
    {
      assert p == (p.0, user);
      var c: int := p.0;
      assert c in Mentioning(s, user);
    }
    forall c | c in all
      ensures (c, user) in mine
    {
      assert c in Mentioning(s, user);
    }
    NewestFirstDistinct(db.comments, all, Mentioning(s, user));
    CountRows(all, mine, user);
    PageIsSlice(s, user, all, page, pageSize);
    forall list | NewestFirst(db.comments, list, Mentioning(s, user))
      ensures list == all
    {
      NewestFirstUnique(db.comments, list, all, Mentioning(s, user));
    }
  }

  lemma NewestFirstDistinct(comments: map<int, Comment>, list: seq<int>, members: set<int>)
    requires NewestFirst(comments, list, members)
    ensures forall i, j :: 0 <= i < j < |list| ==> list[i] != list[j]
  {
    forall i, j | 0 <= i < j < |list|
      ensures list[i] != list[j]
    {
      assert Newer(comments, list[i], list[j]);
    }
  }

  /** Counting a user's mention rows counts the comments they belong to. */
  lemma {:induction false} CountRows(list: seq<int>, rows: set<(int, int)>, user: int)
    requires forall i, j :: 0 <= i < j < |list| ==> list[i] != list[j]
    requires forall p :: p in rows ==> p.1 == user && p.0 in list
    requires forall c :: c in list ==> (c, user) in rows
    ensures |rows| == |list|
  {
    if list == [] {
      assert forall p :: p !in rows;
      assert rows == {};
    } else {
      var first := (list[0], user);
      var fewer := rows - {first};
      assert list == [list[0]] + list[1..];
      forall p | p in fewer
        ensures p.1 == user && p.0 in list[1..]
      {
        assert p == (p.0, user);
        var c: int := p.0;
        assert c in list && c != list[0];
        var i :| 0 <= i < |list| && list[i] == c;
        assert list[1..][i - 1] == c;
      }
      forall c | c in list[1..]
        ensures (c, user) in fewer
      {
        assert c in list;
      }
      CountRows(list[1..], fewer, user);
    }
  }

  /** Pages 1 to n put together. */
  function Pages(list: seq<int>, pageSize: nat, n: nat): seq<int> {
    if n == 0 then [] else Pages(list, pageSize, n - 1) + PageOf(list, n, pageSize)
  }

  lemma {:induction false} PagesArePrefix(list: seq<int>, pageSize: nat, n: nat)
    ensures Pages(list, pageSize, n) == list[..Clip(n * pageSize, |list|)]
  {
    if n > 0 {
      PagesArePrefix(list, pageSize, n - 1);
      assert (n - 1) * pageSize + pageSize == n * pageSize;
      assert (n - 1) * pageSize >= 0;
    }
  }

  /** Reading enough pages of any size lists every mentioning comment once, newest first. */
  lemma PagesCoverAll(list: seq<int>, pageSize: nat, n: nat)
    requires n * pageSize >= |list|
    ensures Pages(list, pageSize, n) == list
  {
    PagesArePrefix(list, pageSize, n);
  }
}
