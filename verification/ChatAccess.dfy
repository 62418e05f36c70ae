/** lib/chat-access.ts: who may read a channel, and what its reports open to whom. */
module ChatAccess {
  import opened Options
  import opened Texts

  type Id = Text

  datatype Kind = Channel | Dm | Group

  datatype Audience = Everyone | Cohort | Team | Staff | Members

  datatype Scope = Scope(id: Id, kind: Kind, audience: Audience, cohortId: Option<Id>, teamId: Option<Id>)

  datatype Viewer = Viewer(userId: Id, staff: bool, vetted: bool, cohortIds: seq<Id>, teamIds: seq<Id>, memberOf: seq<Id>)

  datatype Report = Report(partyIds: seq<Id>)

  predicate CanReadChannel(c: Scope, viewer: Viewer, reported: bool) {
    if viewer.userId == [] then false
    else if c.id in viewer.memberOf then true
    else if c.kind.Channel? then
      viewer.staff
      || (match c.audience
          case Everyone => viewer.vetted
          case Cohort => c.cohortId.Some? && c.cohortId.value in viewer.cohortIds
          case Team => c.teamId.Some? && c.teamId.value in viewer.teamIds
          case Staff => false
          case Members => false)
    else viewer.staff && reported
  }

  predicate ReportOpenTo(partyIds: seq<Id>, viewer: Viewer) {
    viewer.userId != [] && viewer.staff && viewer.userId !in partyIds
  }

  predicate ChannelReportsOpenTo(reports: seq<Report>, viewer: Viewer) {
    reports != [] && forall r :: r in reports ==> ReportOpenTo(r.partyIds, viewer)
  }

  function ReportScope(kind: Kind, own: Report, channelReports: seq<Report>): seq<Report> {
    if kind.Channel? then [own] else channelReports
  }

  predicate ReportVisibleTo(channel: Id, kind: Kind, own: Report, channelReports: seq<Report>, viewer: Viewer) {
    ChannelReportsOpenTo(ReportScope(kind, own, channelReports), viewer) && (kind.Channel? || channel !in viewer.memberOf)
  }

  /** Who a new report is about. */
  ghost predicate IsParty(kind: Kind, members: seq<Id>, senders: seq<Option<Id>>, messageSender: Option<Id>,
                          earlier: seq<Report>, id: Id) {
    id != [] &&
      (|| messageSender == Some(id)
       || (!kind.Channel? && (id in members || Some(id) in senders || exists r :: r in earlier && id in r.partyIds)))
  }

  function Added(out: seq<Id>, id: Id): seq<Id> { if id == [] || id in out then out else out + [id] }

  ghost predicate Distinct(out: seq<Id>) { forall i, j :: 0 <= i < j < |out| ==> out[i] != out[j] }

  method AddAll(out: seq<Id>, ids: seq<Id>) returns (more: seq<Id>)
    requires Distinct(out)
    ensures Distinct(more) && forall id :: id in more <==> id in out || (id != [] && id in ids)
  {
    more := out;
    var i := 0;
    while i < |ids|
      invariant 0 <= i <= |ids| && Distinct(more)
      invariant forall id :: id in more <==> id in out || (id != [] && id in ids[..i])
    {
      assert ids[..i + 1] == ids[..i] + [ids[i]];
      more := Added(more, ids[i]);
      i := i + 1;
    }
    assert ids[..i] == ids;
  }

  method ReportPartyIds(kind: Kind, members: seq<Id>, senders: seq<Option<Id>>, messageSender: Option<Id>, earlier: seq<Report>)
    returns (out: seq<Id>)
    ensures Distinct(out)
    ensures forall id :: id in out <==> IsParty(kind, members, senders, messageSender, earlier, id)
  {
    out := [];
    if messageSender.Some? { out := Added(out, messageSender.value); }
    if kind.Channel? { return; }
    out := AddAll(out, members);
    ghost var named := out;
    var i := 0;
    while i < |senders|
      invariant 0 <= i <= |senders| && Distinct(out)
      invariant forall id :: id in out <==> id in named || (id != [] && Some(id) in senders[..i])
    {
      assert senders[..i + 1] == senders[..i] + [senders[i]];
      if senders[i].Some? { out := Added(out, senders[i].value); }
      i := i + 1;
    }
    assert senders[..i] == senders;
    ghost var posted := out;
    i := 0;
    while i < |earlier|
      invariant 0 <= i <= |earlier| && Distinct(out)
      invariant forall id :: id in out <==> id in posted || (id != [] && exists r :: r in earlier[..i] && id in r.partyIds)
    {
      assert earlier[..i + 1] == earlier[..i] + [earlier[i]];
      out := AddAll(out, earlier[i].partyIds);
      i := i + 1;
    }
    assert earlier[..i] == earlier;
  }

  // ---------------------------------------------------------------------------------------------
  // Histories
  // ---------------------------------------------------------------------------------------------

  /** What happens to one conversation. A report freezes its parties when it is filed. */
  datatype Event = Join(who: Id) | Leave(who: Id) | Post(who: Id) | File(about: Option<Id>)

  datatype Room = Room(members: set<Id>, posted: set<Id>, reports: seq<set<Id>>)

  ghost function Parties(kind: Kind, r: Room, about: Option<Id>): set<Id> {
    (if about.Some? && about.value != [] then {about.value} else {})
    + (if kind.Channel? then {} else (r.members + r.posted + Named(r.reports)) - {[]})
  }

  ghost function Named(reports: seq<set<Id>>): set<Id> {
    if reports == [] then {} else Named(reports[..|reports| - 1]) + reports[|reports| - 1]
  }

  /** What reportPartyIds files for a room is its parties. */
  lemma FilesTheParties(kind: Kind, r: Room, members: seq<Id>, senders: seq<Option<Id>>, about: Option<Id>, earlier: seq<Report>)
    requires forall id :: id in members <==> id in r.members
    requires forall id :: Some(id) in senders <==> id in r.posted
    requires Filed(r, earlier)
    ensures forall id :: IsParty(kind, members, senders, about, earlier, id) <==> id in Parties(kind, r, about)
  {
    forall id ensures (exists e :: e in earlier && id in e.partyIds) <==> id in Named(r.reports) {
      NamedMeans(r.reports, id);
      if exists e :: e in earlier && id in e.partyIds {
        var e :| e in earlier && id in e.partyIds;
        var k :| 0 <= k < |earlier| && earlier[k] == e;
        assert id in r.reports[k];
      }
      if id in Named(r.reports) {
        var k :| 0 <= k < |r.reports| && id in r.reports[k];
        assert earlier[k] in earlier && id in earlier[k].partyIds;
      }
    }
  }

  lemma {:induction false} NamedMeans(reports: seq<set<Id>>, id: Id)
    ensures id in Named(reports) <==> exists k :: 0 <= k < |reports| && id in reports[k]
  {
    if reports != [] {
      var front := reports[..|reports| - 1];
      NamedMeans(front, id);
      if exists k :: 0 <= k < |front| && id in front[k] {
        var k :| 0 <= k < |front| && id in front[k];
        assert id in reports[k];
      }
      if exists k :: 0 <= k < |reports| && id in reports[k] {
        var k :| 0 <= k < |reports| && id in reports[k];
        if k < |front| { assert id in front[k]; }
      }
    }
  }

  ghost function Happens(kind: Kind, r: Room, e: Event): Room {
    match e
    case Join(who) => r.(members := r.members + {who})
    case Leave(who) => r.(members := r.members - {who})
    case Post(who) => r.(posted := r.posted + {who})
    case File(about) => r.(reports := r.reports + [Parties(kind, r, about)])
  }

  ghost function After(kind: Kind, events: seq<Event>): Room {
    if events == [] then Room({}, {}, []) else Happens(kind, After(kind, events[..|events| - 1]), events[|events| - 1])
  }

  /** The reports as the rules read them. */
  ghost predicate Filed(room: Room, reports: seq<Report>) {
    |reports| == |room.reports| && forall k, id :: 0 <= k < |reports| ==> (id in reports[k].partyIds <==> id in room.reports[k])
  }

  lemma {:induction false} ReportsStay(kind: Kind, events: seq<Event>, more: seq<Event>)
    ensures After(kind, events).reports <= After(kind, events + more).reports
    decreases |more|
  {
    if more == [] {
      assert events + more == events;
    } else {
      var all := events + more;
      assert all[..|all| - 1] == events + more[..|more| - 1];
      ReportsStay(kind, events, more[..|more| - 1]);
    }
  }

  /**
   * Whoever was in a DM or group, or had posted in it, when some report was filed can never read it, or see a report on it,
   * through reports again: not whatever joins, leaves, posts and reports come later.
   */
  lemma PartyNeverReadsThroughReports(kind: Kind, before: seq<Event>, about: Option<Id>, later: seq<Event>, who: Id,
                                      c: Scope, viewer: Viewer, reports: seq<Report>, own: Report)
    requires !kind.Channel? && c.kind == kind && viewer.userId == who
    requires who in After(kind, before).members || who in After(kind, before).posted
    requires Filed(After(kind, before + [File(about)] + later), reports)
    ensures !ChannelReportsOpenTo(reports, viewer)
    ensures !ReportVisibleTo(c.id, kind, own, reports, viewer)
    ensures CanReadChannel(c, viewer, ChannelReportsOpenTo(reports, viewer)) ==> c.id in viewer.memberOf
  {
    var room := After(kind, before);
    var filed := before + [File(about)];
    assert filed[..|filed| - 1] == before;
    ReportsStay(kind, filed, later);
    var k := |room.reports|;
    var now := After(kind, filed + later);
    assert now.reports[k] == Parties(kind, room, about);
    if who != [] {
      assert who in now.reports[k];
      assert reports[k] in reports && who in reports[k].partyIds;
    }
  }

  /** The parties of a DM's or group's reports only grow. */
  lemma {:induction false} LaterReportsNameMore(kind: Kind, events: seq<Event>, j: nat, k: nat)
    requires !kind.Channel? && j <= k < |After(kind, events).reports|
    ensures After(kind, events).reports[j] - {[]} <= After(kind, events).reports[k]
    decreases |events|
  {
    var before := After(kind, events[..|events| - 1]);
    if k < |before.reports| {
      LaterReportsNameMore(kind, events[..|events| - 1], j, k);
    } else if j < k {
      NamedHolds(before.reports, j);
    }
  }

  lemma {:induction false} NamedHolds(reports: seq<set<Id>>, j: nat)
    requires j < |reports|
    ensures reports[j] <= Named(reports)
  {
    if j < |reports| - 1 { NamedHolds(reports[..|reports| - 1], j); }
  }

  /** A text channel's report is judged alone: no other report on the channel, filed or withdrawn, changes who sees it. */
  lemma TextChannelReportsStandAlone(channel: Id, own: Report, these: seq<Report>, those: seq<Report>, viewer: Viewer)
    ensures ReportVisibleTo(channel, Channel, own, these, viewer) == ReportVisibleTo(channel, Channel, own, those, viewer)
    ensures ReportVisibleTo(channel, Channel, own, these, viewer)
            <==> viewer.userId != [] && viewer.staff && viewer.userId !in own.partyIds
  {
    assert own in [own];
  }

  /**
   * Who reads a conversation, the reports on it being these: its members; of a text channel also the staff and its audience;
   * of a DM or group otherwise only staff, once there is a report on it, whom no report on it names.
   */
  lemma WhoReads(c: Scope, viewer: Viewer, reports: seq<Report>)
    ensures CanReadChannel(c, viewer, ChannelReportsOpenTo(reports, viewer))
            <==> viewer.userId != []
                 && (|| c.id in viewer.memberOf
                     || (c.kind.Channel?
                         && (|| viewer.staff || (c.audience.Everyone? && viewer.vetted)
                             || (c.audience.Cohort? && c.cohortId.Some? && c.cohortId.value in viewer.cohortIds)
                             || (c.audience.Team? && c.teamId.Some? && c.teamId.value in viewer.teamIds)))
                     || (!c.kind.Channel? && viewer.staff && reports != []
                         && forall r :: r in reports ==> viewer.userId !in r.partyIds))
  {}

  /** Until someone reports it, a DM or group is read by its members alone, staff or not. */
  lemma UnreportedIsPrivate(kind: Kind, events: seq<Event>, c: Scope, viewer: Viewer, reports: seq<Report>)
    requires !kind.Channel? && c.kind == kind && Filed(After(kind, events), reports)
    requires forall k :: 0 <= k < |events| ==> !events[k].File?
    ensures CanReadChannel(c, viewer, ChannelReportsOpenTo(reports, viewer)) <==> viewer.userId != [] && c.id in viewer.memberOf
  {
    NothingFiled(kind, events);
  }

  lemma {:induction false} NothingFiled(kind: Kind, events: seq<Event>)
    requires forall k :: 0 <= k < |events| ==> !events[k].File?
    ensures After(kind, events).reports == []
  {
    if events != [] { NothingFiled(kind, events[..|events| - 1]); }
  }

  /** Who is shown a report on a DM or group: staff whom no report on it names, and who are not in it now. */
  lemma WhoSeesAReport(channel: Id, kind: Kind, own: Report, reports: seq<Report>, viewer: Viewer)
    requires !kind.Channel?
    ensures ReportVisibleTo(channel, kind, own, reports, viewer)
            <==> viewer.userId != [] && viewer.staff && channel !in viewer.memberOf
                 && reports != [] && forall r :: r in reports ==> viewer.userId !in r.partyIds
  {
    assert reports != [] ==> reports[0] in reports;
  }

  // ---------------------------------------------------------------------------------------------
  // Who hears about a report
  // ---------------------------------------------------------------------------------------------

  function AsModerator(id: Id): Viewer { Viewer(id, true, true, [], [], []) }

  method ReportRouting(kind: Kind, moderatorIds: seq<Id>, report: Report, channelReports: seq<Report>, reporterId: Id)
    returns (notify: seq<Id>, outside: bool)
    ensures forall id :: id in notify <==>
              id in moderatorIds && id != reporterId
                  && ChannelReportsOpenTo(ReportScope(kind, report, channelReports), AsModerator(id))
    ensures outside <==> forall id :: id in moderatorIds ==>
              !ChannelReportsOpenTo(ReportScope(kind, report, channelReports), AsModerator(id))
    ensures Distinct(notify)
  {
    var scope := ReportScope(kind, report, channelReports);
    notify, outside := [], true;
    var i := 0;
    while i < |moderatorIds|
      invariant 0 <= i <= |moderatorIds| && Distinct(notify)
      invariant forall id ::
                  id in notify <==> id in moderatorIds[..i] && id != reporterId && ChannelReportsOpenTo(scope, AsModerator(id))
      invariant outside <==> forall id :: id in moderatorIds[..i] ==> !ChannelReportsOpenTo(scope, AsModerator(id))
    {
      var id := moderatorIds[i];
      assert moderatorIds[..i + 1] == moderatorIds[..i] + [id];
      if ChannelReportsOpenTo(scope, AsModerator(id)) {
        outside := false;
        if id != reporterId && id !in notify { notify := notify + [id]; }
      }
      i := i + 1;
    }
    assert moderatorIds[..i] == moderatorIds;
  }

  // ---------------------------------------------------------------------------------------------
  // DM keys
  // ---------------------------------------------------------------------------------------------

  /** None where the source throws: a DM needs two different people. */
  function DmKey(x: Id, y: Id): Option<Text> {
    var a, b := Lower(x), Lower(y);
    if a == [] || b == [] || a == b then None
    else if TextLe(a, b) then Some(a + [COLON] + b) else Some(b + [COLON] + a)
  }

  /** The text before the first colon, and the text between it and the next. */
  function BeforeColon(s: Text): Text { if s == [] || s[0] == COLON then [] else [s[0]] + BeforeColon(s[1..]) }

  const LEGACY: Text := [108, 101, 103, 97, 99, 121, COLON]

  function OtherInDmKey(key: Option<Text>, userId: Id): Option<Id> {
    if key.None? || key.value == [] || StartsAt(key.value, LEGACY, 0) || userId == [] then None else
      var me, whole := Lower(userId), Lower(key.value);
      var a := BeforeColon(whole);
      var rest := if |a| < |whole| then whole[|a| + 1..] else [];
      var b := BeforeColon(rest);
      if a == me then (if b == [] then None else Some(b))
      else if |a| < |whole| && b == me then (if a == [] then None else Some(a))
      else None
  }

  predicate Plain(id: Id) { COLON !in Lower(id) && id != [] && Lower(id) != [108, 101, 103, 97, 99, 121] }

  lemma {:induction false} BeforeColonOf(a: Text, rest: Text)
    requires COLON !in a
    ensures BeforeColon(a + [COLON] + rest) == a
  {
    if a != [] {
      assert (a + [COLON] + rest)[1..] == a[1..] + [COLON] + rest;
      BeforeColonOf(a[1..], rest);
    }
  }

  lemma {:induction false} BeforeNoColon(a: Text)
    requires COLON !in a
    ensures BeforeColon(a) == a
  {
    if a != [] { BeforeNoColon(a[1..]); }
  }

  lemma LowerTwice(s: Text)
    ensures Lower(Lower(s)) == Lower(s)
  {}

  lemma KeyParts(a: Text, b: Text)
    requires Lower(a) == a && Lower(b) == b && COLON !in a && COLON !in b && a != [] && b != []
    ensures var whole := Lower(a + [COLON] + b);
            && whole == a + [COLON] + b && BeforeColon(whole) == a && |a| < |whole| && BeforeColon(whole[|a| + 1..]) == b
  {
    var key := a + [COLON] + b;
    forall k | 0 <= k < |key| ensures LowerUnit(key[k]) == key[k] {
      if k < |a| { assert Lower(a)[k] == LowerUnit(a[k]); }
      else if k > |a| { assert Lower(b)[k - |a| - 1] == LowerUnit(b[k - |a| - 1]); }
    }
    assert Lower(key) == key;
    BeforeColonOf(a, b);
    assert key[|a| + 1..] == b;
    BeforeNoColon(b);
  }

  /** The key is the pair's, whoever clicked first and however their ids were written; each finds the other in it. */
  lemma DmKeyIsThePair(x: Id, y: Id)
    requires Plain(x) && Plain(y)
    ensures DmKey(x, y) == DmKey(y, x)
    ensures DmKey(x, y).Some? <==> Lower(x) != Lower(y)
    ensures DmKey(x, y).Some? ==> OtherInDmKey(DmKey(x, y), x) == Some(Lower(y)) && OtherInDmKey(DmKey(x, y), y) == Some(Lower(x))
  {
    var a, b := Lower(x), Lower(y);
    TextOrder(a, b);
    LowerTwice(x);
    LowerTwice(y);
    if a != b {
      KeyParts(a, b);
      KeyParts(b, a);
      NotLegacy(a, b);
      NotLegacy(b, a);
    }
  }

  lemma NotLegacy(a: Text, b: Text)
    requires COLON !in a && a != [108, 101, 103, 97, 99, 121]
    ensures !StartsAt(a + [COLON] + b, LEGACY, 0)
  {
    BeforeColonOf(a, b);
    LegacyStart(a + [COLON] + b);
  }

  lemma LegacyStart(key: Text)
    ensures StartsAt(key, LEGACY, 0) ==> BeforeColon(key) == [108, 101, 103, 97, 99, 121]
  {
    if StartsAt(key, LEGACY, 0) {
      assert key == LEGACY[..6] + [COLON] + key[7..];
      BeforeColonOf(LEGACY[..6], key[7..]);
    }
  }

  /** Two pairs share a key only when they are the same two people. */
  lemma DmKeyTellsPairsApart(x: Id, y: Id, u: Id, v: Id)
    requires Plain(x) && Plain(y) && Plain(u) && Plain(v)
    requires DmKey(x, y).Some? && DmKey(x, y) == DmKey(u, v)
    ensures {Lower(x), Lower(y)} == {Lower(u), Lower(v)}
  {
    LowerTwice(x); LowerTwice(y); LowerTwice(u); LowerTwice(v);
    KeyParts(Lower(x), Lower(y));
    KeyParts(Lower(y), Lower(x));
    KeyParts(Lower(u), Lower(v));
    KeyParts(Lower(v), Lower(u));
  }
}
