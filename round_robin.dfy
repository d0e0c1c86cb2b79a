/** Round-robin choice of the sales person for a new lead (leads.js lines
    89-117): the roster is the hospital's active sales people in creation
    order, and the choice is the one after the sales person of the hospital's
    newest lead that has one. The rotation keeps no cursor; it is derived from
    the lead table every time. */
module RoundRobin {
  import opened Domain
  import opened Seqs
  import opened Store

  predicate OnRoster(u: User, h: Id) {
    u.hospitalId == Some(h) && u.role == SalesPerson && u.isActive
  }

  /** `findMany({ where: { hospitalId, role: 'SALES_PERSON', isActive: true },
      orderBy: { createdAt: 'asc' } })` over the chronological user table. */
  function Roster(users: seq<User>, h: Id): (r: seq<User>)
    ensures forall u :: u in r <==> u in users && OnRoster(u, h)
  {
    Filter(users, (u: User) => OnRoster(u, h))
  }

  /** `salesPeople.findIndex(u => u.id === id)`. */
  function RosterIndex(roster: seq<User>, id: Id): int {
    FirstIndex(roster, (u: User) => u.id == id)
  }

  predicate TakesPart(l: Lead, h: Id) {
    l.hospitalId == h && l.salesPersonId.Some?
  }

  /** The sales person of the newest lead of hospital `h` that has one
      (`findFirst({ where: { hospitalId, salesPersonId: { not: null } },
      orderBy: { createdAt: 'desc' } })`), deleted leads included. */
  function LastAssigned(leads: seq<Lead>, h: Id): (r: Option<Id>)
    ensures r.Some? <==> exists k :: 0 <= k < |leads| && TakesPart(leads[k], h)
  {
    var i := LastIndex(leads, (l: Lead) => TakesPart(l, h));
    if i < 0 then None else leads[i].salesPersonId
  }

  /** The roster position the rotation picks next. */
  function NextIndex(roster: seq<User>, last: Option<Id>): (i: nat)
    requires roster != []
    ensures i < |roster|
  {
    match last
    case None => 0
    case Some(sp) => (RosterIndex(roster, sp) + 1) % |roster|
  }

  /** The sales person assigned to a new lead of hospital `h`, or none when
      the hospital has no active sales person. */
  function NextSalesPerson(users: seq<User>, leads: seq<Lead>, h: Id): (r: Option<Id>)
    ensures r.None? <==> Roster(users, h) == []
    ensures r.Some? ==> exists u :: u in users && OnRoster(u, h) && u.id == r.value
  {
    var roster := Roster(users, h);
    if roster == [] then None
    else
      var next := roster[NextIndex(roster, LastAssigned(leads, h))];
      assert next in roster;
      Some(next.id)
  }

  /** `(lastIndex + 1) % salesPeople.length` with `lastIndex` in
      [-1, length - 1]: the index after `lastIndex`, wrapping to 0. */
  lemma IndexAfter(roster: seq<User>, sp: Id)
    requires roster != []
    ensures NextIndex(roster, Some(sp)) ==
      if RosterIndex(roster, sp) + 1 == |roster| then 0 else RosterIndex(roster, sp) + 1
  {
    var x, n := RosterIndex(roster, sp) + 1, |roster|;
    if x == n { assert n % n == 0; } else { assert x % n == x; }
  }

  /** Users with pairwise distinct ids. */
  ghost predicate Distinct(us: seq<User>) {
    forall i, j :: 0 <= i < j < |us| ==> us[i].id != us[j].id
  }

  /** Over a chronological user table the roster is in creation order, as
      `orderBy: { createdAt: 'asc' }` asks, and names each member once. */
  lemma RosterChrono(users: seq<User>, h: Id, tick: int)
    requires Chrono(users, UserId, UserStamp, tick)
    ensures Increasing(Roster(users, h), UserStamp) && Distinct(Roster(users, h))
  {
    FilterIncreasing(users, (u: User) => OnRoster(u, h), UserStamp);
    FilterIncreasing(users, (u: User) => OnRoster(u, h), UserId);
  }

  /** With no earlier assignment in the hospital, or with the last assignee no
      longer on the roster, the rotation starts over at the first roster
      member, which over a chronological user table is the oldest active
      sales person of the hospital. */
  lemma StartsAtOldest(users: seq<User>, leads: seq<Lead>, h: Id, tick: int)
    requires Roster(users, h) != []
    requires LastAssigned(leads, h).None? ||
             forall k :: 0 <= k < |Roster(users, h)| ==> Roster(users, h)[k].id != LastAssigned(leads, h).value
    ensures NextSalesPerson(users, leads, h) == Some(Roster(users, h)[0].id)
    ensures Chrono(users, UserId, UserStamp, tick) ==>
      forall u :: u in users && OnRoster(u, h) ==> Roster(users, h)[0].createdAt <= u.createdAt
  {
    var last := LastAssigned(leads, h);
    if last.Some? {
      IndexAfter(Roster(users, h), last.value);
    }
    if Chrono(users, UserId, UserStamp, tick) {
      RosterChrono(users, h, tick);
      var roster := Roster(users, h);
      forall u | u in users && OnRoster(u, h) ensures roster[0].createdAt <= u.createdAt {
        var k :| 0 <= k < |roster| && roster[k] == u;
        if k > 0 { assert UserStamp(roster[0]) < UserStamp(roster[k]); }
      }
    }
  }

  /** Otherwise the rotation picks the member after the last assignee,
      wrapping around after the newest member. */
  lemma FollowsLastAssignee(users: seq<User>, leads: seq<Lead>, h: Id, m: nat)
    requires m < |Roster(users, h)|
    requires Distinct(Roster(users, h))
    requires LastAssigned(leads, h) == Some(Roster(users, h)[m].id)
    ensures NextSalesPerson(users, leads, h) ==
      Some(Roster(users, h)[if m + 1 == |Roster(users, h)| then 0 else m + 1].id)
  {
    var roster := Roster(users, h);
    var i := RosterIndex(roster, roster[m].id);
    assert i == m;
    IndexAfter(roster, roster[m].id);
  }

  /** A lead that takes no sales person of `h` (another hospital's lead, or a
      DUPLICATE row) leaves the last assignee as it was. */
  lemma LastAssignedAppend(leads: seq<Lead>, l: Lead, h: Id)
    ensures LastAssigned(leads + [l], h) == if TakesPart(l, h) then l.salesPersonId else LastAssigned(leads, h)
  {
    var s := leads + [l];
    if !TakesPart(l, h) {
      assert s[..|s| - 1] == leads;
    }
  }

  /** The rotation does not move for a lead that takes no sales person of `h`. */
  lemma UnassignedLeadKeepsRotation(users: seq<User>, leads: seq<Lead>, l: Lead, h: Id)
    requires !TakesPart(l, h)
    ensures NextSalesPerson(users, leads + [l], h) == NextSalesPerson(users, leads, h)
  {
    LastAssignedAppend(leads, l, h);
  }

  /** The lead table once the first `i` of `news` have been created. */
  function Prefix(leads: seq<Lead>, news: seq<Lead>, i: nat): seq<Lead>
    requires i <= |news|
  {
    leads + news[..i]
  }

  /** Each of `news`, created one after another after `leads`, is a lead of
      `h` that took the sales person the rotation picked at its creation. */
  ghost predicate CreatedInTurn(users: seq<User>, leads: seq<Lead>, h: Id, news: seq<Lead>) {
    forall i {:trigger Prefix(leads, news, i)} :: 0 <= i < |news| ==>
      news[i].hospitalId == h && news[i].salesPersonId == NextSalesPerson(users, Prefix(leads, news, i), h)
  }

  /** The roster position `j` places after `start`, going round once. */
  function Offset(start: nat, j: nat, n: nat): nat {
    if start + j < n then start + j else start + j - n
  }

  /** Rotation fairness: when the hospital's roster of `n` sales people stays
      as it is and `n` leads of the hospital are created one after another,
      each taking the sales person the rotation picks at its creation, the
      leads go to consecutive roster members starting at the next one, so every
      member is assigned exactly once. */
  lemma {:induction false} EveryMemberOnce(users: seq<User>, leads: seq<Lead>, h: Id, news: seq<Lead>)
    requires Roster(users, h) != [] && Distinct(Roster(users, h))
    requires |news| == |Roster(users, h)|
    requires CreatedInTurn(users, leads, h, news)
    ensures forall j :: 0 <= j < |news| ==>
      news[j].salesPersonId ==
        Some(Roster(users, h)[Offset(NextIndex(Roster(users, h), LastAssigned(leads, h)), j, |news|)].id)
    ensures forall k :: 0 <= k < |news| ==> AssignedTo(news, Roster(users, h)[k].id)
    ensures forall a, b :: 0 <= a < b < |news| ==> news[a].salesPersonId != news[b].salesPersonId
  {
    var roster := Roster(users, h);
    var n := |roster|;
    var s0 := NextIndex(roster, LastAssigned(leads, h));
    forall j | 0 <= j < n ensures news[j].salesPersonId == Some(roster[Offset(s0, j, n)].id) {
      RotationAt(users, leads, h, news, j);
    }
    OffsetCovers(roster, s0, news);
  }

  /** Some lead of `news` went to the user with id `id`. */
  ghost predicate AssignedTo(news: seq<Lead>, id: Id) {
    exists j :: 0 <= j < |news| && news[j].salesPersonId == Some(id)
  }

  /** Leads assigned to the members at consecutive offsets of a roster of
      distinct users, once round, cover every member once. */
  lemma OffsetCovers(roster: seq<User>, s0: nat, news: seq<Lead>)
    requires Distinct(roster) && s0 < |roster| == |news|
    requires forall j :: 0 <= j < |news| ==> news[j].salesPersonId == Some(roster[Offset(s0, j, |roster|)].id)
    ensures forall k :: 0 <= k < |news| ==> AssignedTo(news, roster[k].id)
    ensures forall a, b :: 0 <= a < b < |news| ==> news[a].salesPersonId != news[b].salesPersonId
  {
    var n := |roster|;
    forall k | 0 <= k < n ensures AssignedTo(news, roster[k].id) {
      var j: nat := if s0 <= k then k - s0 else k + n - s0;
      assert Offset(s0, j, n) == k;
      assert 0 <= j < n && news[j].salesPersonId == Some(roster[k].id);
    }
    forall a, b | 0 <= a < b < n ensures news[a].salesPersonId != news[b].salesPersonId {
      var ia, ib := Offset(s0, a, n), Offset(s0, b, n);
      if ia < ib { assert roster[ia].id != roster[ib].id; } else { assert roster[ib].id != roster[ia].id; }
    }
  }

  /** One step of the rotation: the lead after one that took roster member
      `m` takes the member after `m`. */
  lemma RotationStep(users: seq<User>, leads: seq<Lead>, h: Id, news: seq<Lead>, j: nat, m: nat)
    requires Distinct(Roster(users, h)) && m < |Roster(users, h)|
    requires 0 < j < |news| && CreatedInTurn(users, leads, h, news)
    requires news[j - 1].salesPersonId == Some(Roster(users, h)[m].id)
    ensures news[j].salesPersonId == Some(Roster(users, h)[if m + 1 == |Roster(users, h)| then 0 else m + 1].id)
  {
    var before := Prefix(leads, news, j - 1);
    assert TakesPart(news[j - 1], h);
    assert news[..j] == news[..j - 1] + [news[j - 1]];
    assert Prefix(leads, news, j) == before + [news[j - 1]];
    LastAssignedAppend(before, news[j - 1], h);
    FollowsLastAssignee(users, Prefix(leads, news, j), h, m);
  }

  /** The j-th of those leads goes to the member `j` places after the first pick. */
  lemma {:induction false} RotationAt(users: seq<User>, leads: seq<Lead>, h: Id, news: seq<Lead>, j: nat)
    requires Roster(users, h) != [] && Distinct(Roster(users, h))
    requires j < |news| <= |Roster(users, h)|
    requires CreatedInTurn(users, leads, h, news)
    ensures news[j].salesPersonId ==
      Some(Roster(users, h)[Offset(NextIndex(Roster(users, h), LastAssigned(leads, h)), j, |Roster(users, h)|)].id)
  {
    var roster := Roster(users, h);
    var n := |roster|;
    var s0 := NextIndex(roster, LastAssigned(leads, h));
    if j == 0 {
      assert Prefix(leads, news, 0) == leads;
    } else {
      var m := Offset(s0, j - 1, n);
      RotationAt(users, leads, h, news, j - 1);
      assert m < n && Offset(s0, j, n) == if m + 1 == n then 0 else m + 1;
      RotationStep(users, leads, h, news, j, m);
    }
  }
}
