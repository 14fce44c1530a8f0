/**
 * The eleven event kinds for which the inquiry form has a step-0 template
 * (the keys of `getFormTemplates`), their labels, and the required fields
 * each template declares.
 */
module EventTypes {
  import opened Wrappers

  datatype EventType =
    | Wedding
    | Engagement
    | BirthdayParty
    | NamingCeremony
    | BabyShower
    | CorporateEvent
    | Concert
    | HouseWarming
    | Anniversary
    | Graduation
    | FamilyPortrait

  /** The key under which the template of `e` is registered (the event card's label). */
  function Label(e: EventType): string
  {
    match e
    case Wedding => "Wedding"
    case Engagement => "Engagement"
    case BirthdayParty => "Birthday Party"
    case NamingCeremony => "Naming Ceremony"
    case BabyShower => "Baby Shower"
    case CorporateEvent => "Corporate Event"
    case Concert => "Concert"
    case HouseWarming => "House Warming"
    case Anniversary => "Anniversary"
    case Graduation => "Graduation"
    case FamilyPortrait => "Family Portrait"
  }

  /** Template lookup by label: `formTemplates[eventType]`, absent for an unknown label. */
  function FromLabel(s: string): (r: Option<EventType>)
    ensures r.Some? ==> Label(r.value) == s
  {
    if s == "Wedding" then Some(Wedding)
    else if s == "Engagement" then Some(Engagement)
    else if s == "Birthday Party" then Some(BirthdayParty)
    else if s == "Naming Ceremony" then Some(NamingCeremony)
    else if s == "Baby Shower" then Some(BabyShower)
    else if s == "Corporate Event" then Some(CorporateEvent)
    else if s == "Concert" then Some(Concert)
    else if s == "House Warming" then Some(HouseWarming)
    else if s == "Anniversary" then Some(Anniversary)
    else if s == "Graduation" then Some(Graduation)
    else if s == "Family Portrait" then Some(FamilyPortrait)
    else None
  }

  /** Every event kind has a template: looking up its own label finds it. */
  lemma FromLabelOfLabel(e: EventType)
    ensures FromLabel(Label(e)) == Some(e)
  {
  }

  /** Labels are pairwise distinct, so the template table has eleven entries. */
  lemma LabelInjective(e1: EventType, e2: EventType)
    ensures Label(e1) == Label(e2) ==> e1 == e2
  {
  }

  /** The `required` controls of each step-0 template, in document order. */
  function RequiredFields(e: EventType): seq<string>
  {
    match e
    case Wedding => ["brideName", "groomName", "weddingDate", "weddingVenue", "eventName_1", "loveStory"]
    case Engagement => ["partner1Name", "partner2Name", "engagementDate"]
    case BirthdayParty => ["celebrantName", "celebrantAge", "partyDate", "partyVenue"]
    case NamingCeremony => ["babyName", "ceremonyDate", "ceremonyVenue"]
    case BabyShower => ["expectingParent", "showerDate", "showerVenue"]
    case CorporateEvent => ["companyName", "eventType", "eventDate", "eventVenue"]
    case Concert => ["artistName", "concertDate", "venue"]
    case HouseWarming => ["homeownerNames", "houseWarmingDate", "homeLocation"]
    case Anniversary => ["coupleNames", "anniversaryYear", "celebrationDate", "celebrationVenue"]
    case Graduation => ["graduateName", "degreeLevel", "graduationDate", "celebrationVenue"]
    case FamilyPortrait => ["familyName", "sessionDate"]
  }

  /** The name of the (required) date control of each template. */
  function DateField(e: EventType): (r: string)
    ensures r in RequiredFields(e)
  {
    match e
    case Wedding => "weddingDate"
    case Engagement => "engagementDate"
    case BirthdayParty => "partyDate"
    case NamingCeremony => "ceremonyDate"
    case BabyShower => "showerDate"
    case CorporateEvent => "eventDate"
    case Concert => "concertDate"
    case HouseWarming => "houseWarmingDate"
    case Anniversary => "celebrationDate"
    case Graduation => "graduationDate"
    case FamilyPortrait => "sessionDate"
  }

  /** Only the wedding template contains the repeatable timeline sub-form. */
  predicate HasTimeline(e: EventType)
  {
    e == Wedding
  }
}
