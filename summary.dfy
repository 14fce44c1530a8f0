/**
 * `generateInquirySummary` as a function of the selected event label and
 * `formData`. The summary is a structured record of what the confirmation
 * view shows, not its markup.
 */
module InquirySummaries {
  import opened Wrappers
  import opened Capture
  import opened EventTypes

  /** One labelled line of a block, such as `Email: ...`. */
  datatype Line = Line(caption: string, value: string)

  /** The wedding couple block: "bride & groom", with optional date and venue lines. */
  datatype Couple = Couple(names: string, date: Option<string>, venue: Option<string>)

  /** The Event Details block of every other event type. */
  datatype Details = Details(date: Option<string>, venue: Option<string>)

  /** The rendered summary. `eventType` is `None` when no event was selected (`null`). */
  datatype Summary = Summary(
    eventType: Option<string>,
    couple: Option<Couple>,
    details: Option<Details>,
    services: Option<string>,
    contact: seq<Line>)

  /** The keys probed for a date, in probing order. */
  const DateKeys: seq<string> := ["eventDate", "celebrationDate", "partyDate", "sessionDate", "concertDate"]

  /** The keys probed for a venue, in probing order. */
  const VenueKeys: seq<string> := ["venue", "eventVenue", "celebrationVenue", "partyVenue"]

  /** `formData[k]` is truthy: present and not the empty string. */
  predicate Filled(fd: FormData, k: string)
  {
    k in fd.fields && fd.fields[k] != ""
  }

  /** The `${cond ? line : ''}` pattern: a value shown only when non-empty. */
  function Shown(s: string): (r: Option<string>)
    ensures r.Some? <==> s != ""
    ensures r.Some? ==> r.value == s
  {
    if s == "" then None else Some(s)
  }

  /** The probing loop: `keys.forEach(k => { if (formData[k]) found = formData[k]; })`,
      starting from `found`. */
  function Probe(fd: FormData, keys: seq<string>, found: string): string
  {
    if keys == [] then found
    else Probe(fd, keys[1..], if Filled(fd, keys[0]) then fd.fields[keys[0]] else found)
  }

  /** Probing yields the value of the LAST filled key of the list, or the starting
      value when no key of the list is filled. */
  lemma {:induction false} ProbeLastMatch(fd: FormData, keys: seq<string>, found: string)
    ensures (forall j :: 0 <= j < |keys| ==> !Filled(fd, keys[j])) ==> Probe(fd, keys, found) == found
    ensures forall j ::
              (0 <= j < |keys| && Filled(fd, keys[j]) && forall l :: j < l < |keys| ==> !Filled(fd, keys[l]))
              ==> Probe(fd, keys, found) == fd.fields[keys[j]]
    decreases |keys|
  {
    if keys != [] {
      var next := if Filled(fd, keys[0]) then fd.fields[keys[0]] else found;
      ProbeLastMatch(fd, keys[1..], next);
      forall j | 0 <= j < |keys| && Filled(fd, keys[j]) && (forall l :: j < l < |keys| ==> !Filled(fd, keys[l]))
        ensures Probe(fd, keys, found) == fd.fields[keys[j]]
      {
        if j > 0 {
          assert keys[1..][j - 1] == keys[j];
          assert forall l :: j - 1 < l < |keys| - 1 ==> keys[1..][l] == keys[l + 1];
        } else {
          assert forall l :: 0 <= l < |keys| - 1 ==> keys[1..][l] == keys[l + 1];
        }
      }
    }
  }

  /** Probing from "" gives a non-empty result exactly when some key of the list is filled. */
  lemma ProbeNonEmpty(fd: FormData, keys: seq<string>)
    ensures Probe(fd, keys, "") != "" <==> exists j :: 0 <= j < |keys| && Filled(fd, keys[j])
  {
    ProbeLastMatch(fd, keys, "");
    if exists j :: 0 <= j < |keys| && Filled(fd, keys[j]) {
      var j := LastFilledIndex(fd, keys);
      assert Probe(fd, keys, "") == fd.fields[keys[j]];
    }
  }

  /** The index of the last filled key of `keys`, when one is filled. */
  lemma {:induction false} LastFilledIndex(fd: FormData, keys: seq<string>) returns (j: nat)
    requires exists i :: 0 <= i < |keys| && Filled(fd, keys[i])
    ensures j < |keys| && Filled(fd, keys[j])
    ensures forall l :: j < l < |keys| ==> !Filled(fd, keys[l])
    decreases |keys|
  {
    if Filled(fd, keys[|keys| - 1]) {
      j := |keys| - 1;
    } else {
      var i :| 0 <= i < |keys| && Filled(fd, keys[i]);
      var prefix := keys[..|keys| - 1];
      assert prefix[i] == keys[i];
      j := LastFilledIndex(fd, prefix);
      assert forall l :: j < l < |keys| - 1 ==> prefix[l] == keys[l];
    }
  }

  /** The display-name table of the services block. */
  const ServiceNames: map<string, string> := map[
    "candid" := "Candid Photography",
    "film" := "Wedding Film",
    "traditional" := "Traditional Photography",
    "video" := "Traditional Video",
    "album" := "Premium Album"]

  /** `serviceNames[service] || service`: the display name, or the raw identifier. */
  function ServiceName(id: string): (r: string)
    ensures id in ServiceNames ==> r == ServiceNames[id]
    ensures id !in ServiceNames ==> r == id
  {
    if id in ServiceNames then ServiceNames[id] else id
  }

  /** `services.map(...)`: one display name per identifier, in list order. */
  function DisplayNames(ids: seq<string>): (r: seq<string>)
    ensures |r| == |ids|
    ensures forall i :: 0 <= i < |ids| ==> r[i] == ServiceName(ids[i])
  {
    if ids == [] then [] else [ServiceName(ids[0])] + DisplayNames(ids[1..])
  }

  /** `names.join(', ')`. */
  function Join(names: seq<string>): string
  {
    if names == [] then ""
    else if |names| == 1 then names[0]
    else names[0] + ", " + Join(names[1..])
  }

  /** Joining a list extended by one name appends the separator and that name, so
      the names appear in list order, separated by ", ". */
  lemma {:induction false} JoinSnoc(names: seq<string>, x: string)
    ensures Join(names + [x]) == if names == [] then x else Join(names) + ", " + x
    decreases |names|
  {
    if |names| >= 2 {
      JoinSnoc(names[1..], x);
      assert (names + [x])[1..] == names[1..] + [x];
    } else if |names| == 1 {
      assert (names + [x])[1..] == [x];
    }
  }

  /** The four contact lines the summary can show, in display order. */
  function ContactCandidates(fd: FormData): seq<Line>
  {
    [Line("Name", Get(fd, "contactName")), Line("Email", Get(fd, "contactEmail")),
     Line("Phone", Get(fd, "contactPhone")), Line("Preferred Contact", Get(fd, "preferredContact"))]
  }

  /** The position of a contact caption in the display order. */
  function CaptionRank(caption: string): nat
  {
    if caption == "Name" then 0
    else if caption == "Email" then 1
    else if caption == "Phone" then 2
    else 3
  }

  /** The lines of `ls` with a non-empty value, in their order in `ls`. */
  function KeepShown(ls: seq<Line>): seq<Line>
  {
    if ls == [] then []
    else (if ls[0].value != "" then [ls[0]] else []) + KeepShown(ls[1..])
  }

  /** Filtering keeps only lines of `ls`, and only those with a non-empty value. */
  lemma {:induction false} KeepShownSubset(ls: seq<Line>)
    ensures forall x :: x in KeepShown(ls) ==> x in ls && x.value != ""
    decreases |ls|
  {
    if ls != [] {
      KeepShownSubset(ls[1..]);
    }
  }

  /** The contact block: each line only when its key is filled, in a fixed order. */
  function ContactLines(fd: FormData): (r: seq<Line>)
    ensures |r| <= 4
    ensures forall i :: 0 <= i < |r| ==> r[i].value != ""
    ensures Filled(fd, "contactName") <==> Line("Name", Get(fd, "contactName")) in r
    ensures Filled(fd, "contactEmail") <==> Line("Email", Get(fd, "contactEmail")) in r
    ensures Filled(fd, "contactPhone") <==> Line("Phone", Get(fd, "contactPhone")) in r
    ensures Filled(fd, "preferredContact") <==> Line("Preferred Contact", Get(fd, "preferredContact")) in r
  {
    (if Filled(fd, "contactName") then [Line("Name", Get(fd, "contactName"))] else [])
    + (if Filled(fd, "contactEmail") then [Line("Email", Get(fd, "contactEmail"))] else [])
    + (if Filled(fd, "contactPhone") then [Line("Phone", Get(fd, "contactPhone"))] else [])
    + (if Filled(fd, "preferredContact") then [Line("Preferred Contact", Get(fd, "preferredContact"))] else [])
  }

  /** The contact block is exactly the candidate lines with a non-empty value, in
      the order Name, Email, Phone, Preferred Contact: no other line, no reordering. */
  lemma ContactLinesExact(fd: FormData)
    ensures ContactLines(fd) == KeepShown(ContactCandidates(fd))
  {
    var cs := ContactCandidates(fd);
    var a := if cs[0].value != "" then [cs[0]] else [];
    var b := if cs[1].value != "" then [cs[1]] else [];
    var c := if cs[2].value != "" then [cs[2]] else [];
    var d := if cs[3].value != "" then [cs[3]] else [];
    assert cs[3..][1..] == [];
    assert KeepShown(cs[3..]) == d;
    assert cs[2..][1..] == cs[3..];
    assert KeepShown(cs[2..]) == c + d;
    assert cs[1..][1..] == cs[2..];
    assert KeepShown(cs[1..]) == b + (c + d);
    assert KeepShown(cs) == a + (b + (c + d));
    assert ContactLines(fd) == a + b + c + d;
  }

  /** The value of `k`, or "" when absent; an absent key reads like an empty one. */
  function Get(fd: FormData, k: string): string
  {
    if k in fd.fields then fd.fields[k] else ""
  }

  /** The whole summary for the selected event label and the captured data. */
  function InquirySummary(selected: Option<string>, fd: FormData): Summary
  {
    var isWedding := selected == Some("Wedding");
    var couple :=
      if isWedding && Filled(fd, "brideName") && Filled(fd, "groomName") then
        Some(Couple(Get(fd, "brideName") + " & " + Get(fd, "groomName"),
                    Shown(Get(fd, "weddingDate")), Shown(Get(fd, "weddingVenue"))))
      else None;
    var date := Probe(fd, DateKeys, "");
    var venue := Probe(fd, VenueKeys, "");
    var details :=
      if !isWedding && (date != "" || venue != "") then Some(Details(Shown(date), Shown(venue)))
      else None;
    var services :=
      if fd.services.Some? && |fd.services.value| > 0 then Some(Join(DisplayNames(fd.services.value)))
      else None;
    Summary(selected, couple, details, services, ContactLines(fd))
  }

  /** What the summary shows, block by block. */
  lemma {:induction false} SummaryBlocks(selected: Option<string>, fd: FormData)
    ensures var s := InquirySummary(selected, fd);
      && s.eventType == selected
      // the couple block: Wedding with both partner names filled
      && (s.couple.Some? <==> selected == Some("Wedding") && Filled(fd, "brideName") && Filled(fd, "groomName"))
      && (s.couple.Some? ==>
            s.couple.value.names == fd.fields["brideName"] + " & " + fd.fields["groomName"]
            && (s.couple.value.date.Some? <==> Filled(fd, "weddingDate"))
            && (s.couple.value.venue.Some? <==> Filled(fd, "weddingVenue"))
            && (s.couple.value.date.Some? ==> s.couple.value.date.value == fd.fields["weddingDate"])
            && (s.couple.value.venue.Some? ==> s.couple.value.venue.value == fd.fields["weddingVenue"]))
      // the event details block: any other event with a filled date or venue key
      && (s.details.Some? <==>
            (selected != Some("Wedding")
             && ((exists j :: 0 <= j < |DateKeys| && Filled(fd, DateKeys[j]))
                 || (exists j :: 0 <= j < |VenueKeys| && Filled(fd, VenueKeys[j])))))
      && (s.details.Some? ==>
            (s.details.value.date.Some? <==> exists j :: 0 <= j < |DateKeys| && Filled(fd, DateKeys[j]))
            && (s.details.value.venue.Some? <==> exists j :: 0 <= j < |VenueKeys| && Filled(fd, VenueKeys[j])))
      // the services block: a non-empty list, shown in list order
      && (s.services.Some? <==> |ServiceList(fd)| > 0)
      && (s.services.Some? ==> s.services.value == Join(DisplayNames(ServiceList(fd))))
  {
    ProbeNonEmpty(fd, DateKeys);
    ProbeNonEmpty(fd, VenueKeys);
  }

  /** The date shown for a non-Wedding event is the value of the last filled date
      key, whatever the venue keys hold. */
  lemma SummaryDateLastKeyWins(selected: Option<string>, fd: FormData, dj: nat)
    requires selected != Some("Wedding")
    requires dj < |DateKeys| && Filled(fd, DateKeys[dj]) && forall l :: dj < l < |DateKeys| ==> !Filled(fd, DateKeys[l])
    ensures var d := InquirySummary(selected, fd).details;
      d.Some? && d.value.date == Some(fd.fields[DateKeys[dj]])
  {
    ProbeLastMatch(fd, DateKeys, "");
  }

  /** The venue shown for a non-Wedding event is the value of the last filled venue
      key, whatever the date keys hold. */
  lemma SummaryVenueLastKeyWins(selected: Option<string>, fd: FormData, vj: nat)
    requires selected != Some("Wedding")
    requires vj < |VenueKeys| && Filled(fd, VenueKeys[vj]) && forall l :: vj < l < |VenueKeys| ==> !Filled(fd, VenueKeys[l])
    ensures var d := InquirySummary(selected, fd).details;
      d.Some? && d.value.venue == Some(fd.fields[VenueKeys[vj]])
  {
    ProbeLastMatch(fd, VenueKeys, "");
  }

  /** A venue-only corporate inquiry shows its venue and no date line. */
  lemma VenueOnlyExample()
    ensures var fd := FormData(map["eventVenue" := "Hotel X"], None);
      InquirySummary(Some("Corporate Event"), fd).details == Some(Details(None, Some("Hotel X")))
  {
    var fd := FormData(map["eventVenue" := "Hotel X"], None);
    assert fd.fields.Keys == {"eventVenue"};
    assert forall j :: 0 <= j < |DateKeys| ==> !Filled(fd, DateKeys[j]);
    assert VenueKeys[1] == "eventVenue" && Filled(fd, VenueKeys[1]);
    assert forall l :: 1 < l < |VenueKeys| ==> !Filled(fd, VenueKeys[l]);
    ProbeLastMatch(fd, DateKeys, "");
    SummaryVenueLastKeyWins(Some("Corporate Event"), fd, 1);
  }

  /** For every event type except Wedding whose template's date control is one of the
      probed keys, a filled date control always reaches the summary. */
  lemma TemplateDateShown(e: EventType, fd: FormData)
    requires e != Wedding && DateField(e) in DateKeys && Filled(fd, DateField(e))
    ensures var s := InquirySummary(Some(Label(e)), fd);
      s.details.Some? && s.details.value.date.Some?
  {
    FromLabelOfLabel(e);
    var j :| 0 <= j < |DateKeys| && DateKeys[j] == DateField(e);
    ProbeNonEmpty(fd, DateKeys);
    ProbeNonEmpty(fd, VenueKeys);
  }

  /** Which templates' date controls are probed: the date of an Engagement, Naming
      Ceremony, Baby Shower, House Warming or Graduation inquiry is never looked for. */
  lemma ProbedDateFields(e: EventType)
    ensures DateField(e) in DateKeys <==>
      e in {BirthdayParty, CorporateEvent, Concert, Anniversary, FamilyPortrait}
  {
  }

  /** The wedding example: couple "Asha & Ravi" with its date and venue lines. */
  lemma WeddingExample()
    ensures var fd := FormData(map["brideName" := "Asha", "groomName" := "Ravi",
                                   "weddingDate" := "2026-01-10", "weddingVenue" := "Garden Hall"], None);
      InquirySummary(Some("Wedding"), fd).couple
        == Some(Couple("Asha & Ravi", Some("2026-01-10"), Some("Garden Hall")))
  {
    assert "Asha" + " & " + "Ravi" == "Asha & Ravi";
  }

  /** The override example: with both `eventVenue` and `partyVenue` set, the later key wins. */
  lemma VenueOverrideExample()
    ensures var fd := FormData(map["eventVenue" := "Hotel X", "partyVenue" := "Home"], None);
      InquirySummary(Some("Corporate Event"), fd).details == Some(Details(None, Some("Home")))
  {
    var fd := FormData(map["eventVenue" := "Hotel X", "partyVenue" := "Home"], None);
    assert fd.fields.Keys == {"eventVenue", "partyVenue"};
    assert forall j :: 0 <= j < |DateKeys| ==> !Filled(fd, DateKeys[j]);
    assert VenueKeys[3] == "partyVenue" && Filled(fd, VenueKeys[3]);
    ProbeLastMatch(fd, DateKeys, "");
    ProbeLastMatch(fd, VenueKeys, "");
  }
}
