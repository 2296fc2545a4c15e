/**
  The interview store: interviews keyed by id plus the selected calendar date,
  with its mutations as state-to-state functions and its two queries as methods.
  Every operation is total; a missing id is never an error.
 */
module InterviewStore {
  import opened Wrappers
  import opened Calendar
  import opened InterviewTypes

  /** The store's state; `selectedDate` is None while it is `undefined`. */
  datatype StoreState = StoreState(interviews: map<string, Interview>, selectedDate: Option<DateValue>)

  const EmptyStore: StoreState := StoreState(map[], None)

  /** The store's intended invariant: every interview is filed under its own id. */
  ghost predicate KeysMatchIds(m: map<string, Interview>) {
    forall k :: k in m ==> m[k].id == k
  }

  /** `addInterview`: files `r` under `r.id`, replacing whatever was there. */
  function AddInterview(s: StoreState, r: Interview): (t: StoreState)
    ensures r.id in t.interviews && t.interviews[r.id] == r
    ensures t.interviews.Keys == s.interviews.Keys + {r.id}
    ensures forall k :: k in s.interviews && k != r.id ==> t.interviews[k] == s.interviews[k]
    ensures t.selectedDate == s.selectedDate
  {
    s.(interviews := s.interviews[r.id := r])
  }

  /** One key of `{ ...r, ...p }`. */
  function Pick(r: Interview, p: Patch, k: Field): string {
    if k in p then p[k] else Get(r, k)
  }

  /** `{ ...r, ...p }`: every key the patch sets takes the patch's value, every other key keeps its own. */
  function Merge(r: Interview, p: Patch): (m: Interview)
    ensures forall k :: Get(m, k) == if k in p then p[k] else Get(r, k)
  {
    Interview(
      Pick(r, p, Id),
      FormData(
        Pick(r, p, Detail(CompanyName)),
        Pick(r, p, Detail(Position)),
        Pick(r, p, Detail(Date)),
        Pick(r, p, Detail(StartTime)),
        Pick(r, p, Detail(Duration)),
        Pick(r, p, Detail(Location)),
        Pick(r, p, Detail(Status)),
        Pick(r, p, Detail(Notes)),
        Pick(r, p, Detail(Color))))
  }

  /** `updateInterview`: merges the patch onto the interview under `id`; the state is returned as is when there is none. */
  function UpdateInterview(s: StoreState, id: string, p: Patch): (t: StoreState)
    ensures id !in s.interviews ==> t == s
    ensures id in s.interviews ==>
      && t.interviews.Keys == s.interviews.Keys
      && (forall k :: Get(t.interviews[id], k) == if k in p then p[k] else Get(s.interviews[id], k))
      && (forall k :: k in s.interviews && k != id ==> t.interviews[k] == s.interviews[k])
      && t.selectedDate == s.selectedDate
  {
    if id !in s.interviews then s
    else s.(interviews := s.interviews[id := Merge(s.interviews[id], p)])
  }

  /** `deleteInterview`: removes the entry under `id`, if any. */
  function DeleteInterview(s: StoreState, id: string): (t: StoreState)
    ensures t.interviews.Keys == s.interviews.Keys - {id}
    ensures forall k :: k in t.interviews ==> t.interviews[k] == s.interviews[k]
    ensures t.selectedDate == s.selectedDate
  {
    s.(interviews := s.interviews - {id})
  }

  /** `setSelectedDate`: the interviews are not touched. */
  function SetSelectedDate(s: StoreState, d: Option<DateValue>): (t: StoreState)
    ensures t.interviews == s.interviews && t.selectedDate == d
  {
    s.(selectedDate := d)
  }

  /** Deleting twice is deleting once, and deleting a missing id changes nothing. */
  lemma DeleteIdempotent(s: StoreState, id: string)
    ensures DeleteInterview(DeleteInterview(s, id), id) == DeleteInterview(s, id)
    ensures id !in s.interviews ==> DeleteInterview(s, id) == s
  {
  }

  /** Adding, deleting, and updating with a patch that leaves the id alone keep every interview under its own id. */
  lemma MutationsKeepKeysMatchIds(s: StoreState, r: Interview, id: string, p: Patch)
    requires KeysMatchIds(s.interviews)
    ensures KeysMatchIds(AddInterview(s, r).interviews)
    ensures KeysMatchIds(DeleteInterview(s, id).interviews)
    ensures Id !in p || p[Id] == id ==> KeysMatchIds(UpdateInterview(s, id, p).interviews)
  {
    if id in s.interviews && (Id !in p || p[Id] == id) {
      var t := UpdateInterview(s, id, p);
      assert Get(t.interviews[id], Id) == id;
    }
  }

  /**
    An update whose patch carries a different id breaks the invariant, whatever the
    store: the entry keeps its key but reports the patch's id.
   */
  lemma ForeignIdPatchBreaksKeysMatchIds(s: StoreState, id: string, p: Patch)
    requires id in s.interviews && Id in p && p[Id] != id
    ensures var t := UpdateInterview(s, id, p);
      id in t.interviews && t.interviews[id].id == p[Id] && !KeysMatchIds(t.interviews)
  {
    var t := UpdateInterview(s, id, p);
    assert Get(t.interviews[id], Id) == p[Id];
  }


  /** `ids` and `rs` list the map: each key exactly once, each with its own interview. */
  ghost predicate Lists(m: map<string, Interview>, ids: seq<string>, rs: seq<Interview>) {
    && |ids| == |rs|
    && (forall i, j :: 0 <= i < j < |ids| ==> ids[i] != ids[j])
    && (forall k :: k in m <==> k in ids)
    && (forall i :: 0 <= i < |ids| ==> ids[i] in m && rs[i] == m[ids[i]])
  }

  lemma {:induction false} DistinctSeqCard(ids: seq<string>)
    requires forall i, j :: 0 <= i < j < |ids| ==> ids[i] != ids[j]
    ensures |set k | k in ids| == |ids|
  {
    if ids != [] {
      var last := ids[|ids| - 1];
      var init := ids[..|ids| - 1];
      DistinctSeqCard(init);
      assert (set k | k in ids) == (set k | k in init) + {last};
      assert last !in init;
    }
  }

  /** A listing holds one interview per key, and exactly the stored interviews. */
  lemma ListingIsValues(m: map<string, Interview>, ids: seq<string>, rs: seq<Interview>)
    requires Lists(m, ids, rs)
    ensures |rs| == |m|
    ensures forall r :: r in rs <==> r in m.Values
  {
    DistinctSeqCard(ids);
    assert (set k | k in ids) == m.Keys;
    forall r ensures r in rs <==> r in m.Values {
      if r in rs {
        var i :| 0 <= i < |rs| && rs[i] == r;
        assert m[ids[i]] == r;
      }
      if r in m.Values {
        var k :| k in m && m[k] == r;
        var i :| 0 <= i < |ids| && ids[i] == k;
        assert rs[i] == r;
      }
    }
  }

  /** A listing of a map whose keys match its ids holds every stored interview exactly once. */
  lemma ListedOnce(m: map<string, Interview>, ids: seq<string>, rs: seq<Interview>)
    requires Lists(m, ids, rs) && KeysMatchIds(m)
    ensures forall k :: k in m ==> multiset(rs)[m[k]] == 1
  {
    forall k | k in m ensures multiset(rs)[m[k]] == 1 {
      var i :| 0 <= i < |ids| && ids[i] == k;
      assert rs[i] == m[k];
      DistinctCountsOnce(rs, m[k]);
    }
  }

  lemma {:induction false} DistinctCountsOnce(rs: seq<Interview>, r: Interview)
    requires forall i, j :: 0 <= i < j < |rs| ==> rs[i].id != rs[j].id
    requires r in rs
    ensures multiset(rs)[r] == 1
  {
    assert rs == [rs[0]] + rs[1..];
    if rs[0] == r {
      assert r !in rs[1..];
    } else {
      DistinctCountsOnce(rs[1..], r);
    }
  }

  /** `getAllInterviews` (`Object.values`): every stored interview once, in an order left open. */
  method AllInterviews(s: StoreState) returns (ids: seq<string>, rs: seq<Interview>)
    ensures Lists(s.interviews, ids, rs)
  {
    var m := s.interviews;
    ids, rs := [], [];
    var rest := m.Keys;
    while rest != {}
      invariant rest <= m.Keys
      invariant forall k :: k in m ==> (k in rest <==> k !in ids)
      invariant forall k :: k in ids ==> k in m
      invariant |ids| == |rs|
      invariant forall i, j :: 0 <= i < j < |ids| ==> ids[i] != ids[j]
      invariant forall i :: 0 <= i < |ids| ==> rs[i] == m[ids[i]]
      decreases rest
    {
      var k :| k in rest;
      ids, rs := ids + [k], rs + [m[k]];
      rest := rest - {k};
    }
  }

  /** The entries of `m` whose `date` field is the string `day`. */
  function RecordsOn(m: map<string, Interview>, day: string): (on: map<string, Interview>)
    ensures forall k :: k in on <==> k in m && m[k].details.date == day
    ensures forall k :: k in on ==> on[k] == m[k]
  {
    map k | k in m && m[k].details.date == day :: m[k]
  }

  /**
    `getInterviewsByDate`: the stored interviews whose `date` string equals `day`,
    the `YYYY-MM-DD` part of the queried date's ISO rendering.
   */
  method InterviewsByDate(s: StoreState, day: string) returns (ids: seq<string>, rs: seq<Interview>)
    ensures Lists(RecordsOn(s.interviews, day), ids, rs)
  {
    var m := s.interviews;
    var all, values := AllInterviews(s);
    ids, rs := [], [];
    var i := 0;
    while i < |all|
      invariant 0 <= i <= |all|
      invariant |ids| == |rs|
      invariant forall a, b :: 0 <= a < b < |ids| ==> ids[a] != ids[b]
      invariant forall k :: k in ids <==> k in all[..i] && m[k].details.date == day
      invariant forall a :: 0 <= a < |ids| ==> ids[a] in m && rs[a] == m[ids[a]]
    {
      assert all[..i + 1] == all[..i] + [all[i]];
      assert all[i] !in all[..i];
      if values[i].details.date == day {
        ids, rs := ids + [all[i]], rs + [values[i]];
      }
      i := i + 1;
    }
    assert all[..i] == all;
  }

  /**
    For a four-digit-year day, an interview's `date` string is that day's ISO
    `YYYY-MM-DD` text exactly when the string parses to that day, so the date query
    agrees with the grid's day matching.
   */
  lemma DateStringMatchesDay(r: Interview, d: CivilDate)
    requires IsCalendarDate(d) && d.year < 10000
    ensures r.details.date == IsoText(d) <==> ParseIsoDate(r.details.date) == Day(d)
  {
    if r.details.date == IsoText(d) {
      ParseIsoText(d);
    }
    if ParseIsoDate(r.details.date) == Day(d) {
      IsoTextOfParse(r.details.date);
    }
  }
}
