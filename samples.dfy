/**
  The sample inventory screen: the client-side `SMP-` id generator, the search/status/type
  filter, the status stat cards, the row a create inserts (with its PII fields nulled when
  empty), the prepend that follows a successful insert, and the masked PII line every card
  shows.
 */
module Samples {
  import opened Wrappers
  import opened JsText
  import opened Lists
  import opened Domain
  import opened ClientIds
  import opened Pii
  import opened PiiPolicy

  /** The fields of a sample row the screen reads or writes. */
  datatype Sample = Sample(
    id: string,
    name: string,
    sample_type: string,
    experiment_id: Option<string>,
    batch: Option<string>,
    volume: Option<string>,
    concentration: Option<string>,
    storage: string,
    location: Option<string>,
    status: string,
    quantity: int,
    max_quantity: int,
    patient_id: Option<string>,
    organization: Option<string>,
    created_by: Option<string>)

  /** The "new sample" form (the expiry date picker is not part of this model). */
  datatype SampleForm = SampleForm(
    name: string, sample_type: string, storage: string,
    volume: string, concentration: string, location: string,
    experiment_id: string, batch: string,
    patient_id: string, organization: string,
    quantity: int, max_quantity: int)

  const IdPrefix := "SMP-"
  const DefaultMax := 1100

  function Ids(xs: seq<Sample>): (ids: seq<string>)
    ensures |ids| == |xs|
    ensures forall i :: 0 <= i < |xs| ==> ids[i] == xs[i].id
  {
    seq(|xs|, i requires 0 <= i < |xs| => xs[i].id)
  }

  /** `nextSampleId(existing)`: "SMP-" followed by one more than the largest suffix that
      parses (1100 when none does); it is never the id of a listed sample. */
  function NextSampleId(xs: seq<Sample>): (r: string)
    ensures forall i :: 0 <= i < |xs| ==> xs[i].id != r
    ensures r == IdPrefix + IntToString(NextAfter(ParsedSuffixes(Ids(xs), IdPrefix), DefaultMax))
  {
    var r := NextSequentialId(Ids(xs), IdPrefix, DefaultMax);
    assert forall i :: 0 <= i < |xs| ==> xs[i].id in Ids(xs);
    r
  }

  /** When no id's suffix parses, the next id is "SMP-1101". */
  lemma NextSampleIdDefault(xs: seq<Sample>)
    requires forall i :: 0 <= i < |xs| ==> SuffixNumber(xs[i].id, IdPrefix).None?
    ensures NextSampleId(xs) == "SMP-1101"
  {
    var ids := Ids(xs);
    assert forall i :: 0 <= i < |ids| ==> SuffixNumber(ids[i], IdPrefix).None?;
    NextAfterDefault(ids, IdPrefix, DefaultMax);
    NatToString1101();
    assert IdPrefix + "1101" == "SMP-1101";
  }

  lemma NatToString1101()
    ensures IntToString(1101) == "1101"
  {
    assert NatToString(1) == "1";
    assert NatToString(11) == "11";
    assert NatToString(110) == "110";
  }

  /** The screen's filter test: the search (case-insensitive) hits the name, the id or the
      experiment id (a null one never hits), and each drop-down is "All" or equal. */
  predicate Matches(s: Sample, search: string, statusFilter: string, typeFilter: string) {
    && (SearchHit(s.name, search) || SearchHit(s.id, search) || OptionalHit(s.experiment_id, search))
    && ChoiceMatches(statusFilter, s.status)
    && ChoiceMatches(typeFilter, s.sample_type)
  }

  /** `filtered`: the samples that match, as an order-preserving sublist. */
  function Filtered(xs: seq<Sample>, search: string, statusFilter: string, typeFilter: string): (r: seq<Sample>)
    ensures IsSublist(r, xs)
    ensures forall i :: 0 <= i < |r| ==> r[i] in xs && Matches(r[i], search, statusFilter, typeFilter)
    ensures forall i :: 0 <= i < |xs| && Matches(xs[i], search, statusFilter, typeFilter) ==> xs[i] in r
  {
    Filter(xs, s => Matches(s, search, statusFilter, typeFilter))
  }

  /** An empty search with both drop-downs on "All" shows every sample. */
  lemma FilteredShowsAll(xs: seq<Sample>)
    ensures Filtered(xs, "", "All", "All") == xs
  {
    forall s | s in xs ensures Matches(s, "", "All", "All") {
      EmptySearchHits(s.name);
    }
  }

  /** The four stat cards. */
  datatype StatCards = StatCards(total: nat, active: nat, lowStock: nat, quarantine: nat)

  function CountStatus(xs: seq<Sample>, status: string): nat {
    |Filter(xs, (s: Sample) => s.status == status)|
  }

  /** `statCards`: the total, and the number of samples in each of three statuses; no card
      exceeds the total and the three status cards together do not either. */
  function Stats(xs: seq<Sample>): (c: StatCards)
    ensures c.total == |xs|
    ensures c.active == CountStatus(xs, "Active")
    ensures c.lowStock == CountStatus(xs, "Low Stock")
    ensures c.quarantine == CountStatus(xs, "Quarantine")
    ensures c.active <= c.total && c.lowStock <= c.total && c.quarantine <= c.total
    ensures c.active + c.lowStock + c.quarantine <= c.total
  {
    FilterExclusive3(xs,
      (s: Sample) => s.status == "Active",
      (s: Sample) => s.status == "Low Stock",
      (s: Sample) => s.status == "Quarantine");
    StatCards(|xs|, CountStatus(xs, "Active"), CountStatus(xs, "Low Stock"), CountStatus(xs, "Quarantine"))
  }

  /** The row a create inserts: status "Active", the creator recorded, and every optional
      text field, the patient id and organization included, null when left empty. */
  function NewSample(id: string, form: SampleForm, profile: Profile): (s: Sample)
    ensures s.id == id && s.name == form.name && s.status == "Active"
    ensures s.created_by == Some(profile.id)
    ensures s.patient_id.None? <==> form.patient_id == ""
    ensures s.organization.None? <==> form.organization == ""
    ensures s.patient_id.Some? ==> s.patient_id.value == form.patient_id
    ensures s.organization.Some? ==> s.organization.value == form.organization
    ensures s.experiment_id.None? <==> form.experiment_id == ""
    ensures s.experiment_id.Some? ==> s.experiment_id.value == form.experiment_id
    ensures s.sample_type == form.sample_type && s.storage == form.storage
    ensures s.quantity == form.quantity && s.max_quantity == form.max_quantity
    ensures s.batch == OrNull(form.batch) && s.volume == OrNull(form.volume)
    ensures s.concentration == OrNull(form.concentration) && s.location == OrNull(form.location)
  {
    Sample(id, form.name, form.sample_type, OrNull(form.experiment_id), OrNull(form.batch),
      OrNull(form.volume), OrNull(form.concentration), form.storage, OrNull(form.location),
      "Active", form.quantity, form.max_quantity, OrNull(form.patient_id),
      OrNull(form.organization), Some(profile.id))
  }

  /** A field is shown when it is a non-empty string (`value && …`). */
  predicate Truthy(v: Option<string>) {
    v.Some? && v.value != ""
  }

  /** The PII line of a sample card: absent unless the patient id or the organization is
      set; otherwise the masked patient id, " · " when both are set, and the masked
      organization. */
  function PiiLine(s: Sample, piiVisible: bool): (o: Option<string>)
    ensures o.None? <==> !Truthy(s.patient_id) && !Truthy(s.organization)
    ensures Truthy(s.patient_id) && !Truthy(s.organization) ==>
              o == Some(MaskPatientId(s.patient_id, piiVisible))
    ensures !Truthy(s.patient_id) && Truthy(s.organization) ==>
              o == Some(MaskOrganization(s.organization, piiVisible))
    ensures Truthy(s.patient_id) && Truthy(s.organization) ==>
              o == Some(MaskPatientId(s.patient_id, piiVisible) + " · " + MaskOrganization(s.organization, piiVisible))
  {
    if !Truthy(s.patient_id) && !Truthy(s.organization) then None
    else
      var pid := if Truthy(s.patient_id) then MaskPatientId(s.patient_id, piiVisible) else "";
      var sep := if Truthy(s.patient_id) && Truthy(s.organization) then " · " else "";
      var org := if Truthy(s.organization) then MaskOrganization(s.organization, piiVisible) else "";
      assert pid + sep + org == if sep == "" then pid + org else pid + " · " + org;
      assert pid == "" ==> pid + org == org;
      assert org == "" ==> pid + org == pid;
      Some(pid + sep + org)
  }

  /** With PII visible the line shows the stored values themselves. */
  lemma PiiLineVisible(s: Sample)
    requires Truthy(s.patient_id) && Truthy(s.organization)
    ensures PiiLine(s, true) == Some(s.patient_id.value + " · " + s.organization.value)
  {
  }

  /** With PII hidden, two samples whose patient ids agree on their first four characters
      (and have the same length up to four) and whose organizations are equally present
      get the same line: nothing beyond that prefix can be read off the card. */
  lemma HiddenPiiLineRevealsOnlyPrefix(s: Sample, t: Sample)
    requires Truthy(s.patient_id) == Truthy(t.patient_id)
    requires Truthy(s.organization) == Truthy(t.organization)
    requires Truthy(s.patient_id) ==>
               s.patient_id.value[..Min(4, |s.patient_id.value|)] == t.patient_id.value[..Min(4, |t.patient_id.value|)]
    ensures PiiLine(s, false) == PiiLine(t, false)
  {
    if Truthy(s.patient_id) {
      HiddenPatientIdRevealsOnlyPrefix(s.patient_id.value, t.patient_id.value);
    }
    if Truthy(s.organization) {
      HiddenOrganizationRevealsNothing(s.organization.value, t.organization.value);
    }
  }

  /** Whoever is not a lab manager sees the hidden line, whatever the PII flag says. */
  lemma NonManagerSeesHiddenLine(s: Sample, profile: Option<Profile>, hidePII: bool)
    requires RoleOf(profile) != Some(LabManager)
    ensures PiiLine(s, PiiVisible(profile, hidePII)) == PiiLine(s, false)
  {
    OnlyManagersSeePii(profile, hidePII);
  }

  /** The list state of the sample inventory screen. */
  class SamplesScreen {
    var samples: seq<Sample>

    constructor(loaded: seq<Sample>)
      ensures samples == loaded
    {
      samples := loaded;
    }

    /** `createSample()`: nothing happens without a trimmed name or a profile; otherwise
        the row built from the form under the next id is sent, and the row the server
        returns (none on error) is put in front of the list. */
    method Create(form: SampleForm, profile: Option<Profile>, reply: Option<Sample>)
      returns (sent: Option<Sample>)
      modifies this`samples
      ensures !CanSubmit(form.name, profile) ==> sent.None? && samples == old(samples)
      ensures CanSubmit(form.name, profile) ==>
                sent == Some(NewSample(NextSampleId(old(samples)), form, profile.value))
      ensures CanSubmit(form.name, profile) && reply.Some? ==> samples == [reply.value] + old(samples)
      ensures reply.None? ==> samples == old(samples)
    {
      if Trim(form.name) == "" || profile.None? {
        return None;
      }
      var id := NextSampleId(samples);
      sent := Some(NewSample(id, form, profile.value));
      if reply.Some? {
        samples := [reply.value] + samples;
      }
    }
  }
}
