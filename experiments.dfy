/**
  The experiments screen: the client-side `EXP-` id generator, the search/status/category
  filter, the role gates, and the two in-memory list updates (prepend the row a successful
  insert returns, drop every row with a deleted id).
 */
module Experiments {
  import opened Wrappers
  import opened JsText
  import opened Lists
  import opened Domain
  import opened ClientIds

  /** The fields of an experiment row the screen reads or writes. */
  datatype Experiment = Experiment(
    id: string,
    name: string,
    category: string,
    phase: Option<string>,
    status: string,
    priority: string,
    researcher_id: Option<string>,
    researcher_name: Option<string>,
    tags: seq<string>,
    description: Option<string>,
    due_date: Option<string>,
    progress: int,
    created_by: Option<string>)

  /** The "new experiment" form. */
  datatype ExperimentForm = ExperimentForm(
    name: string, category: string, phase: string, priority: string,
    due_date: string, description: string)

  const IdPrefix := "EXP-"
  const DefaultMax := 2000

  function Ids(xs: seq<Experiment>): (ids: seq<string>)
    ensures |ids| == |xs|
    ensures forall i :: 0 <= i < |xs| ==> ids[i] == xs[i].id
  {
    seq(|xs|, i requires 0 <= i < |xs| => xs[i].id)
  }

  /** `nextExpId(existing)`: "EXP-" followed by one more than the largest suffix that
      parses (2000 when none does); it is never the id of a listed experiment. */
  function NextExpId(xs: seq<Experiment>): (r: string)
    ensures forall i :: 0 <= i < |xs| ==> xs[i].id != r
    ensures r == IdPrefix + IntToString(NextAfter(ParsedSuffixes(Ids(xs), IdPrefix), DefaultMax))
  {
    var r := NextSequentialId(Ids(xs), IdPrefix, DefaultMax);
    assert forall i :: 0 <= i < |xs| ==> xs[i].id in Ids(xs);
    r
  }

  lemma NatToString2001()
    ensures IntToString(2001) == "2001"
  {
    assert NatToString(2) == "2";
    assert NatToString(20) == "20";
    assert NatToString(200) == "200";
  }

  /** When no id's suffix parses, the next id is "EXP-2001". */
  lemma NextExpIdDefault(xs: seq<Experiment>)
    requires forall i :: 0 <= i < |xs| ==> SuffixNumber(xs[i].id, IdPrefix).None?
    ensures NextExpId(xs) == "EXP-2001"
  {
    var ids := Ids(xs);
    assert forall i :: 0 <= i < |ids| ==> SuffixNumber(ids[i], IdPrefix).None?;
    NextAfterDefault(ids, IdPrefix, DefaultMax);
    NatToString2001();
    assert IdPrefix + "2001" == "EXP-2001";
  }

  /** The screen's filter test: the search (case-insensitive) hits the name, the id or the
      researcher name (a null name never hits), and each drop-down is "All" or equal. */
  predicate Matches(e: Experiment, search: string, statusFilter: string, categoryFilter: string) {
    && (SearchHit(e.name, search) || SearchHit(e.id, search) || OptionalHit(e.researcher_name, search))
    && ChoiceMatches(statusFilter, e.status)
    && ChoiceMatches(categoryFilter, e.category)
  }

  /** `filtered`: the experiments that match, as an order-preserving sublist. */
  function Filtered(xs: seq<Experiment>, search: string, statusFilter: string, categoryFilter: string): (r: seq<Experiment>)
    ensures IsSublist(r, xs)
    ensures forall i :: 0 <= i < |r| ==> r[i] in xs && Matches(r[i], search, statusFilter, categoryFilter)
    ensures forall i :: 0 <= i < |xs| && Matches(xs[i], search, statusFilter, categoryFilter) ==> xs[i] in r
  {
    Filter(xs, e => Matches(e, search, statusFilter, categoryFilter))
  }

  /** An empty search with both drop-downs on "All" shows the whole list. */
  lemma FilteredShowsAll(xs: seq<Experiment>)
    ensures Filtered(xs, "", "All", "All") == xs
  {
    forall e | e in xs ensures Matches(e, "", "All", "All") {
      EmptySearchHits(e.name);
    }
  }

  /** The row a create inserts: the form's name, category, phase and priority, status
      "In Progress", no tags, progress 0, the creator as researcher with their (possibly
      null) full name, and the due date and description as given, or null when empty. */
  function NewExperiment(id: string, form: ExperimentForm, profile: Profile): (e: Experiment)
    ensures e.id == id && e.name == form.name && e.status == "In Progress"
    ensures e.tags == [] && e.progress == 0
    ensures e.researcher_id == Some(profile.id) && e.created_by == e.researcher_id
    ensures e.researcher_name == profile.full_name
    ensures e.category == form.category && e.phase == Some(form.phase) && e.priority == form.priority
    ensures e.due_date.None? <==> form.due_date == ""
    ensures e.description.None? <==> form.description == ""
    ensures e.due_date.Some? ==> e.due_date.value == form.due_date
    ensures e.description.Some? ==> e.description.value == form.description
  {
    Experiment(id, form.name, form.category, Some(form.phase), "In Progress", form.priority,
      Some(profile.id), profile.full_name, [], OrNull(form.description), OrNull(form.due_date), 0,
      Some(profile.id))
  }

  /** `prev.filter((e) => e.id !== id)`: exactly the rows with other ids stay, in order;
      the removed and the kept rows together account for the whole list. */
  function RemoveById(xs: seq<Experiment>, id: string): (r: seq<Experiment>)
    ensures IsSublist(r, xs)
    ensures forall i :: 0 <= i < |r| ==> r[i].id != id
    ensures forall i :: 0 <= i < |xs| && xs[i].id != id ==> xs[i] in r
    ensures (forall i :: 0 <= i < |xs| ==> xs[i].id != id) ==> r == xs
    ensures |r| + |Filter(xs, (e: Experiment) => e.id == id)| == |xs|
  {
    FilterComplement(xs, (e: Experiment) => e.id != id, (e: Experiment) => e.id == id);
    Filter(xs, (e: Experiment) => e.id != id)
  }

  /** The list state of the experiments screen. */
  class ExperimentsScreen {
    var experiments: seq<Experiment>

    constructor(loaded: seq<Experiment>)
      ensures experiments == loaded
    {
      experiments := loaded;
    }

    /** `createExperiment()`: nothing happens without a trimmed name or a profile;
        otherwise the row built from the form under the next id is sent, and the row the
        server returns (none on error) is put in front of the list. */
    method Create(form: ExperimentForm, profile: Option<Profile>, reply: Option<Experiment>)
      returns (sent: Option<Experiment>)
      modifies this`experiments
      ensures !CanSubmit(form.name, profile) ==> sent.None? && experiments == old(experiments)
      ensures CanSubmit(form.name, profile) ==>
                sent == Some(NewExperiment(NextExpId(old(experiments)), form, profile.value))
      ensures CanSubmit(form.name, profile) && reply.Some? ==> experiments == [reply.value] + old(experiments)
      ensures reply.None? ==> experiments == old(experiments)
    {
      if Trim(form.name) == "" || profile.None? {
        return None;
      }
      var id := NextExpId(experiments);
      sent := Some(NewExperiment(id, form, profile.value));
      if reply.Some? {
        experiments := [reply.value] + experiments;
      }
    }

    /** `deleteExperiment(id)`: once confirmed, every row with that id leaves the list,
        whatever the remote delete returned. */
    method Delete(id: string, confirmed: bool)
      modifies this`experiments
      ensures experiments == if confirmed then RemoveById(old(experiments), id) else old(experiments)
    {
      if !confirmed {
        return;
      }
      experiments := RemoveById(experiments, id);
    }
  }
}
