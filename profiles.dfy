/** The profile document and the field set the create-or-update handler
    builds from a request before its one store call. */
module Profiles {
  import opened Js
  import opened Strings
  import opened Subdocs
  import opened Validation

  type UserId = string

  /** Names for the optional top-level string fields of a profile. */
  datatype Scalar = Company | Website | Location | Bio | Status | GithubUsername

  /** Names for the keys of the `social` sub-object. */
  datatype SocialKey = YouTube | Twitter | Facebook | LinkedIn | Instagram

  /** The fields the create-or-update handler destructures from `req.body`. */
  datatype ProfileInput = ProfileInput(
    company: Option<string>, website: Option<string>, location: Option<string>,
    bio: Option<string>, status: Option<string>, githubusername: Option<string>,
    skills: Option<string>,
    youtube: Option<string>, facebook: Option<string>, twitter: Option<string>,
    instagram: Option<string>, linkedin: Option<string>)

  function ScalarInput(inp: ProfileInput, f: Scalar): Option<string> {
    match f
    case Company => inp.company
    case Website => inp.website
    case Location => inp.location
    case Bio => inp.bio
    case Status => inp.status
    case GithubUsername => inp.githubusername
  }

  function SocialInput(inp: ProfileInput, k: SocialKey): Option<string> {
    match k
    case YouTube => inp.youtube
    case Twitter => inp.twitter
    case Facebook => inp.facebook
    case LinkedIn => inp.linkedin
    case Instagram => inp.instagram
  }

  /** The top-level string fields of a document; `None` is a missing key. */
  datatype Scalars = Scalars(
    company: Option<string>, website: Option<string>, location: Option<string>,
    bio: Option<string>, status: Option<string>, githubusername: Option<string>)

  /** The `social` sub-object; `None` is a missing key. */
  datatype Social = Social(
    youtube: Option<string>, twitter: Option<string>, facebook: Option<string>,
    linkedin: Option<string>, instagram: Option<string>)

  const NoScalars := Scalars(None, None, None, None, None, None)
  const NoSocial := Social(None, None, None, None, None)

  function ScalarOf(s: Scalars, f: Scalar): Option<string> {
    match f
    case Company => s.company
    case Website => s.website
    case Location => s.location
    case Bio => s.bio
    case Status => s.status
    case GithubUsername => s.githubusername
  }

  function SocialOf(s: Social, k: SocialKey): Option<string> {
    match k
    case YouTube => s.youtube
    case Twitter => s.twitter
    case Facebook => s.facebook
    case LinkedIn => s.linkedin
    case Instagram => s.instagram
  }

  /** The fields the add-experience handler takes from `req.body`. */
  datatype ExperienceFields = ExperienceFields(
    title: Option<string>, company: Option<string>, location: Option<string>,
    from: Option<string>, to: Option<string>, current: Option<bool>,
    description: Option<string>)

  /** The fields the add-education handler takes from `req.body`. */
  datatype EducationFields = EducationFields(
    school: Option<string>, degree: Option<string>, fieldofstudy: Option<string>,
    from: Option<string>, to: Option<string>, current: Option<bool>,
    description: Option<string>)

  /** A stored profile document. */
  datatype Profile = Profile(
    user: UserId,
    scalars: Scalars,
    skills: seq<string>,
    social: Social,
    experience: seq<Entry<ExperienceFields>>,
    education: seq<Entry<EducationFields>>)

  /** The object the handler passes to the store (`profileFields`): `user`,
      the scalars it assigned, the parsed skills when given, and a `social`
      object that is always present. */
  datatype FieldSet = FieldSet(
    user: UserId,
    scalars: Scalars,
    skills: Option<seq<string>>,
    social: Social)

  /** A profile as the handlers leave it: keyed by its own user, with no two
      nested entries sharing an id. */
  ghost predicate WellFormed(p: Profile, uid: UserId) {
    p.user == uid && DistinctIds(p.experience) && DistinctIds(p.education)
  }

  // ---------------------------------------------------------------- validation

  /** The create-or-update validators: status and skills are required. */
  function ProfileErrors(inp: ProfileInput): (r: seq<string>)
    ensures r == [] <==> Truthy(inp.status) && Truthy(inp.skills)
  {
    var checks := [Check(inp.status, "Status is required"), Check(inp.skills, "Skills is required")];
    assert checks[0].value == inp.status && checks[1].value == inp.skills;
    Errors(checks)
  }

  /** The add-experience validators: title, company and from are required. */
  function ExperienceErrors(e: ExperienceFields): (r: seq<string>)
    ensures r == [] <==> Truthy(e.title) && Truthy(e.company) && Truthy(e.from)
  {
    var checks := [Check(e.title, "Title is require"), Check(e.company, "Company is require"),
                   Check(e.from, "From date is require")];
    assert checks[0].value == e.title && checks[1].value == e.company && checks[2].value == e.from;
    Errors(checks)
  }

  /** The add-education validators: school, degree, field of study and from are required. */
  function EducationErrors(e: EducationFields): (r: seq<string>)
    ensures r == [] <==>
      Truthy(e.school) && Truthy(e.degree) && Truthy(e.fieldofstudy) && Truthy(e.from)
  {
    var checks := [Check(e.school, "School is require"), Check(e.degree, "Degree is require"),
                   Check(e.fieldofstudy, "Field of study is require"),
                   Check(e.from, "From date is require")];
    assert checks[0].value == e.school && checks[1].value == e.degree;
    assert checks[2].value == e.fieldofstudy && checks[3].value == e.from;
    Errors(checks)
  }

  // ---------------------------------------------------------------- skills

  /** `pieces.map(skill => skill.trim())`. */
  function TrimAll(pieces: seq<string>): (r: seq<string>)
    ensures |r| == |pieces|
    ensures forall i :: 0 <= i < |r| ==> r[i] == Trim(pieces[i])
  {
    if pieces == [] then [] else [Trim(pieces[0])] + TrimAll(pieces[1..])
  }

  /** `skills.split(',').map(skill => skill.trim())`: one skill per
      comma-separated piece, each trimmed, empty pieces kept. */
  function ParseSkills(s: string): (r: seq<string>)
    ensures |r| == Count(s, ',') + 1
    ensures forall i :: 0 <= i < |r| ==> ',' !in r[i]
  {
    var pieces := Split(s, ',');
    var r := TrimAll(pieces);
    forall i | 0 <= i < |r| ensures ',' !in r[i] {
      TrimInside(pieces[i], ',');
    }
    r
  }

  lemma TrimInside(s: string, c: char)
    requires c !in s
    ensures c !in Trim(s)
  {
    var t := TrimStart(s);
    assert forall x :: x in t ==> x in s;
    var r := TrimEnd(t);
    assert forall x :: x in r ==> x in t;
  }

  /** Each skill is its piece of the comma split, trimmed. */
  lemma SkillsArePieces(s: string)
    ensures var r := ParseSkills(s); var pieces := Split(s, ',');
            |r| == |pieces| && forall i :: 0 <= i < |r| ==> r[i] == Trim(pieces[i])
  {
  }

  /** Parsing a comma-joined list of comma-free pieces gives back the pieces,
      each trimmed. */
  lemma ParseJoined(pieces: seq<string>)
    requires |pieces| > 0 && forall i :: 0 <= i < |pieces| ==> ',' !in pieces[i]
    ensures ParseSkills(Join(pieces, ',')) == TrimAll(pieces)
  {
    SplitJoin(pieces, ',');
  }

  // ---------------------------------------------------------------- field set

  /** What `if (x) profileFields.x = x` leaves for one input: the input when
      it is truthy, nothing otherwise. */
  function Kept(v: Option<string>): (r: Option<string>)
    ensures r.Some? <==> Truthy(v)
    ensures r.Some? ==> r == v
  {
    if Truthy(v) then v else None
  }

  /** The field set as a value. */
  function ProfileFields(uid: UserId, inp: ProfileInput): FieldSet {
    FieldSet(
      uid,
      Scalars(Kept(inp.company), Kept(inp.website), Kept(inp.location),
              Kept(inp.bio), Kept(inp.status), Kept(inp.githubusername)),
      if Truthy(inp.skills) then Some(ParseSkills(inp.skills.value)) else None,
      Social(Kept(inp.youtube), Kept(inp.twitter), Kept(inp.facebook),
             Kept(inp.linkedin), Kept(inp.instagram)))
  }

  /** The handler's builder: start from an empty object and assign each field
      whose input is truthy, then do the same for a fresh `social` object. */
  method BuildProfileFields(uid: UserId, inp: ProfileInput) returns (fs: FieldSet)
    ensures fs == ProfileFields(uid, inp)
  {
    var scalars := NoScalars;
    if Truthy(inp.company) { scalars := scalars.(company := inp.company); }
    if Truthy(inp.website) { scalars := scalars.(website := inp.website); }
    if Truthy(inp.location) { scalars := scalars.(location := inp.location); }
    if Truthy(inp.bio) { scalars := scalars.(bio := inp.bio); }
    if Truthy(inp.status) { scalars := scalars.(status := inp.status); }
    if Truthy(inp.githubusername) { scalars := scalars.(githubusername := inp.githubusername); }
    assert scalars == Scalars(Kept(inp.company), Kept(inp.website), Kept(inp.location),
                              Kept(inp.bio), Kept(inp.status), Kept(inp.githubusername));
    var skills: Option<seq<string>> := None;
    if Truthy(inp.skills) { skills := Some(ParseSkills(inp.skills.value)); }

    var social := NoSocial;
    if Truthy(inp.youtube) { social := social.(youtube := inp.youtube); }
    if Truthy(inp.twitter) { social := social.(twitter := inp.twitter); }
    if Truthy(inp.facebook) { social := social.(facebook := inp.facebook); }
    if Truthy(inp.linkedin) { social := social.(linkedin := inp.linkedin); }
    if Truthy(inp.instagram) { social := social.(instagram := inp.instagram); }
    assert social == Social(Kept(inp.youtube), Kept(inp.twitter), Kept(inp.facebook),
                            Kept(inp.linkedin), Kept(inp.instagram));

    fs := FieldSet(uid, scalars, skills, social);
  }

  /** Every field a truthy input names is in the field set with that value;
      no other scalar is. */
  lemma FieldSetScalars(uid: UserId, inp: ProfileInput, f: Scalar)
    ensures ScalarOf(ProfileFields(uid, inp).scalars, f).Some? <==> Truthy(ScalarInput(inp, f))
    ensures Truthy(ScalarInput(inp, f)) ==>
              ScalarOf(ProfileFields(uid, inp).scalars, f) == ScalarInput(inp, f)
  {
  }

  // ---------------------------------------------------------------- upsert

  /** `$set` on the scalars: a field in the set overwrites, the rest stays. */
  function Overlay(stored: Scalars, given: Scalars): (r: Scalars)
    ensures forall f ::
              ScalarOf(r, f) == if ScalarOf(given, f).Some? then ScalarOf(given, f) else ScalarOf(stored, f)
  {
    Scalars(
      if given.company.Some? then given.company else stored.company,
      if given.website.Some? then given.website else stored.website,
      if given.location.Some? then given.location else stored.location,
      if given.bio.Some? then given.bio else stored.bio,
      if given.status.Some? then given.status else stored.status,
      if given.githubusername.Some? then given.githubusername else stored.githubusername)
  }

  /** `$set: profileFields` on an existing document: every key of the field
      set overwrites the stored one, `social` as a whole; the rest stays. */
  function ApplySet(p: Profile, fs: FieldSet): Profile {
    p.(user := fs.user,
       scalars := Overlay(p.scalars, fs.scalars),
       skills := if fs.skills.Some? then fs.skills.value else p.skills,
       social := fs.social)
  }

  /** `new Profile(profileFields)`: nested arrays start empty, and so do the
      skills when none were given. */
  function NewProfile(fs: FieldSet): Profile {
    Profile(fs.user, fs.scalars, fs.skills.GetOr([]), fs.social, [], [])
  }

  /** The document after create-or-update, given what the lookup found. */
  function Upserted(existing: Option<Profile>, fs: FieldSet): Profile {
    match existing
    case Some(p) => ApplySet(p, fs)
    case None => NewProfile(fs)
  }

  /** The profile always belongs to the caller, and a scalar field holds the
      request's value when that is truthy; otherwise it keeps the stored value
      (on update) or stays absent (on create). */
  lemma UpsertScalars(existing: Option<Profile>, uid: UserId, inp: ProfileInput, f: Scalar)
    ensures var p := Upserted(existing, ProfileFields(uid, inp));
      && p.user == uid
      && (Truthy(ScalarInput(inp, f)) ==> ScalarOf(p.scalars, f) == ScalarInput(inp, f))
      && (!Truthy(ScalarInput(inp, f)) && existing.Some? ==>
            ScalarOf(p.scalars, f) == ScalarOf(existing.value.scalars, f))
      && (!Truthy(ScalarInput(inp, f)) && existing.None? ==> ScalarOf(p.scalars, f) == None)
  {
  }

  /** Truthy skills replace the stored list by their parse; otherwise the
      stored list stays (on update) or is empty (on create). */
  lemma UpsertSkills(existing: Option<Profile>, uid: UserId, inp: ProfileInput)
    ensures var p := Upserted(existing, ProfileFields(uid, inp));
      && (Truthy(inp.skills) ==> p.skills == ParseSkills(inp.skills.value))
      && (!Truthy(inp.skills) && existing.Some? ==> p.skills == existing.value.skills)
      && (!Truthy(inp.skills) && existing.None? ==> p.skills == [])
  {
  }

  /** After any upsert `social` holds exactly this request's truthy social
      inputs: a key stored earlier and not supplied again is gone. */
  lemma UpsertSocial(existing: Option<Profile>, uid: UserId, inp: ProfileInput, k: SocialKey)
    ensures SocialOf(Upserted(existing, ProfileFields(uid, inp)).social, k) ==
            if Truthy(SocialInput(inp, k)) then SocialInput(inp, k) else None
  {
  }

  /** Creating starts with empty experience and education; updating leaves
      both lists as they were. */
  lemma UpsertLists(existing: Option<Profile>, uid: UserId, inp: ProfileInput)
    ensures var p := Upserted(existing, ProfileFields(uid, inp));
      && (existing.None? ==> p.experience == [] && p.education == [])
      && (existing.Some? ==> p.experience == existing.value.experience
                             && p.education == existing.value.education)
  {
  }

  /** An upsert keeps a well-formed profile well-formed. */
  lemma UpsertWellFormed(existing: Option<Profile>, uid: UserId, inp: ProfileInput)
    requires existing.Some? ==> WellFormed(existing.value, uid)
    ensures WellFormed(Upserted(existing, ProfileFields(uid, inp)), uid)
  {
  }

  /** Two updates in a row: a scalar set by the first and not mentioned by the
      second survives, while a social key set by the first and not repeated by
      the second is dropped. */
  lemma SecondUpdateKeepsScalarDropsSocial(existing: Option<Profile>, uid: UserId,
                                           first: ProfileInput, second: ProfileInput,
                                           f: Scalar, k: SocialKey)
    requires Truthy(ScalarInput(first, f)) && !Truthy(ScalarInput(second, f))
    requires Truthy(SocialInput(first, k)) && !Truthy(SocialInput(second, k))
    ensures var p1 := Upserted(existing, ProfileFields(uid, first));
            var p2 := Upserted(Some(p1), ProfileFields(uid, second));
            && SocialOf(p1.social, k) == SocialInput(first, k)
            && SocialOf(p2.social, k) == None
            && ScalarOf(p2.scalars, f) == ScalarInput(first, f)
  {
    var p1 := Upserted(existing, ProfileFields(uid, first));
    UpsertScalars(existing, uid, first, f);
    UpsertScalars(Some(p1), uid, second, f);
    UpsertSocial(existing, uid, first, k);
    UpsertSocial(Some(p1), uid, second, k);
  }
}
