/**
  The protocols screen, over a catalogue of protocols: the search/category/status filter,
  the summary counts, and the per-protocol star flags, a dictionary seeded from the
  catalogue and flipped one key per click.
 */
module Protocols {
  import opened Lists
  import opened Domain

  /** The fields of a catalogue entry the screen's logic reads. */
  datatype Protocol = Protocol(id: string, title: string, category: string, status: string, starred: bool)

  // ---------------------------------------------------------------------------
  // Star flags
  // ---------------------------------------------------------------------------

  /** The ids of the catalogue. */
  function IdSet(ps: seq<Protocol>): set<string> {
    set i | 0 <= i < |ps| :: ps[i].id
  }

  /** `Object.fromEntries(protocols.map((p) => [p.id, p.starred]))`: the entries are
      written in catalogue order, so when an id repeats the later entry wins. */
  function InitialStarred(ps: seq<Protocol>): (m: map<string, bool>)
    ensures forall i :: 0 <= i < |ps| ==> ps[i].id in m
    ensures ps != [] ==> m[ps[|ps| - 1].id] == ps[|ps| - 1].starred
    decreases |ps|
  {
    if ps == [] then map[]
    else InitialStarred(ps[..|ps| - 1])[ps[|ps| - 1].id := ps[|ps| - 1].starred]
  }

  /** The dictionary has exactly one key per catalogue id. */
  lemma {:induction false} InitialStarredKeys(ps: seq<Protocol>)
    ensures InitialStarred(ps).Keys == IdSet(ps)
    decreases |ps|
  {
    if ps != [] {
      var init := ps[..|ps| - 1];
      var last := ps[|ps| - 1];
      InitialStarredKeys(init);
      assert forall i :: 0 <= i < |init| ==> init[i] == ps[i];
      assert IdSet(ps) == IdSet(init) + {last.id} by {
        forall i | 0 <= i < |ps| ensures ps[i].id in IdSet(init) + {last.id} {
          if i < |init| {
            assert init[i].id == ps[i].id;
          }
        }
      }
    }
  }

  /** Each protocol whose id does not come again later in the catalogue starts with its
      own flag. */
  lemma {:induction false} InitialStarredLastWins(ps: seq<Protocol>, i: nat)
    requires i < |ps|
    requires forall j :: i < j < |ps| ==> ps[j].id != ps[i].id
    ensures ps[i].id in InitialStarred(ps) && InitialStarred(ps)[ps[i].id] == ps[i].starred
    decreases |ps|
  {
    if i < |ps| - 1 {
      var init := ps[..|ps| - 1];
      assert init[i] == ps[i];
      assert forall j :: i < j < |init| ==> init[j] == ps[j];
      InitialStarredLastWins(init, i);
      assert ps[|ps| - 1].id != ps[i].id;
    }
  }

  /** `starred[id]` read as a condition: a missing key (undefined) is not starred. */
  predicate IsStarred(m: map<string, bool>, id: string) {
    id in m && m[id]
  }

  /** `{ ...prev, [id]: !prev[id] }`: the clicked id is set to the opposite of what was
      shown (so a missing id becomes starred) and every other entry is kept. */
  function Toggled(m: map<string, bool>, id: string): (r: map<string, bool>)
    ensures id in r && (IsStarred(r, id) <==> !IsStarred(m, id))
    ensures forall k :: k != id ==> (k in r <==> k in m)
    ensures forall k :: k != id && k in m ==> r[k] == m[k]
  {
    m[id := !IsStarred(m, id)]
  }

  /** Two clicks on the same star give back the same star display for every id. */
  lemma ToggleTwiceShowsSame(m: map<string, bool>, id: string, k: string)
    ensures IsStarred(Toggled(Toggled(m, id), id), k) == IsStarred(m, k)
  {
  }

  /** Two clicks restore the dictionary itself when the id was already a key; for a
      missing id they leave it behind with the value false. */
  lemma ToggleTwiceRestores(m: map<string, bool>, id: string)
    ensures id in m ==> Toggled(Toggled(m, id), id) == m
    ensures id !in m ==> Toggled(Toggled(m, id), id) == m[id := false]
  {
    var r := Toggled(Toggled(m, id), id);
    if id in m {
      assert r.Keys == m.Keys;
      assert forall k :: k in m ==> r[k] == m[k];
    } else {
      assert r.Keys == m.Keys + {id};
      assert forall k :: k in r ==> r[k] == m[id := false][k];
    }
  }

  // ---------------------------------------------------------------------------
  // Filter and counts
  // ---------------------------------------------------------------------------

  /** The filter test: the search (case-insensitive) hits the title or the id, and each
      drop-down is "All" or equal. */
  predicate Matches(p: Protocol, search: string, category: string, status: string) {
    && (SearchHit(p.title, search) || SearchHit(p.id, search))
    && ChoiceMatches(category, p.category)
    && ChoiceMatches(status, p.status)
  }

  /** `filtered`: the protocols that match, as an order-preserving sublist. */
  function Filtered(ps: seq<Protocol>, search: string, category: string, status: string): (r: seq<Protocol>)
    ensures IsSublist(r, ps)
    ensures forall i :: 0 <= i < |r| ==> r[i] in ps && Matches(r[i], search, category, status)
    ensures forall i :: 0 <= i < |ps| && Matches(ps[i], search, category, status) ==> ps[i] in r
  {
    Filter(ps, p => Matches(p, search, category, status))
  }

  /** An empty search with both drop-downs on "All" shows the whole catalogue. */
  lemma FilteredShowsAll(ps: seq<Protocol>)
    ensures Filtered(ps, "", "All", "All") == ps
  {
    forall p | p in ps ensures Matches(p, "", "All", "All") {
      EmptySearchHits(p.title);
    }
  }

  /** The three summary cards. */
  datatype Summary = Summary(total: nat, approved: nat, needsAttention: nat)

  /** The summary cards: the catalogue size, the approved protocols and the others
      ("Needs Attention"); the last two always add up to the first. */
  function Summarize(ps: seq<Protocol>): (s: Summary)
    ensures s.total == |ps|
    ensures s.approved == |Filter(ps, (p: Protocol) => p.status == "Approved")|
    ensures s.needsAttention == |Filter(ps, (p: Protocol) => p.status != "Approved")|
    ensures s.approved + s.needsAttention == s.total
  {
    FilterComplement(ps, (p: Protocol) => p.status == "Approved", (p: Protocol) => p.status != "Approved");
    Summary(|ps|,
      |Filter(ps, (p: Protocol) => p.status == "Approved")|,
      |Filter(ps, (p: Protocol) => p.status != "Approved")|)
  }

  /** The star state of the protocols screen. */
  class ProtocolsScreen {
    var starred: map<string, bool>

    /** The dictionary starts from the catalogue's own flags. */
    constructor(catalogue: seq<Protocol>)
      ensures starred == InitialStarred(catalogue)
    {
      starred := InitialStarred(catalogue);
    }

    /** A click on a protocol's star. */
    method ToggleStar(id: string)
      modifies this`starred
      ensures starred == Toggled(old(starred), id)
    {
      starred := starred[id := !(id in starred && starred[id])];
    }
  }
}
