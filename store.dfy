/** The profile routes over an in-memory store: one map from user id to
    profile (so there is at most one profile per user), plus the users and
    the posts the cascade delete touches. Each handler validates, makes its
    single lookup, changes at most what it looks up, and answers. */
module ProfileStore {
  import opened Js
  import opened Subdocs
  import opened Profiles

  type PostId = string

  /** A registered user (fields other than those users.js writes are not part
      of this model). */
  datatype User = User(name: string, email: string, avatar: string)

  /** A post; only its owner matters to the profile routes. */
  datatype Post = Post(user: UserId, text: string)

  /** What a handler answers with instead of a document. */
  datatype Failure =
    | Invalid(messages: seq<string>)  // a validator rejected the request
    | NotFound(msg: string)           // the read routes found no profile
    | ServerError                     // the handler threw and its catch answered

  datatype Result<T> = Ok(value: T) | Err(failure: Failure)

  /** `Profile.findOne({ user })` as an option. */
  function Find(profiles: map<UserId, Profile>, uid: UserId): (r: Option<Profile>)
    ensures r.Some? <==> uid in profiles
    ensures r.Some? ==> r.value == profiles[uid]
  {
    if uid in profiles then Some(profiles[uid]) else None
  }

  /** The posts left by `Post.deleteMany({ user })`: none of `uid`'s, every
      other post as it was, and nothing that was not there before. */
  function PostsNotBy(posts: map<PostId, Post>, uid: UserId): (r: map<PostId, Post>)
    ensures forall p :: p in r ==> r[p].user != uid
    ensures forall p :: p in posts && posts[p].user != uid ==> p in r && r[p] == posts[p]
    ensures forall p :: p in r ==> p in posts && r[p] == posts[p]
  {
    map p | p in posts && posts[p].user != uid :: posts[p]
  }

  class Store {
    var users: map<UserId, User>
    var profiles: map<UserId, Profile>
    var posts: map<PostId, Post>

    /** Every profile sits under its own user's id and has distinct entry ids. */
    ghost predicate Valid()
      reads this
    {
      forall u :: u in profiles ==> WellFormed(profiles[u], u)
    }

    constructor (users: map<UserId, User>, profiles: map<UserId, Profile>, posts: map<PostId, Post>)
      requires forall u :: u in profiles ==> WellFormed(profiles[u], u)
      ensures Valid()
      ensures this.users == users && this.profiles == profiles && this.posts == posts
    {
      this.users := users;
      this.profiles := profiles;
      this.posts := posts;
    }

    /** GET /me: the caller's profile, or "there is no profile for this user". */
    method GetCurrentProfile(uid: UserId) returns (r: Result<Profile>)
      requires Valid()
      ensures r.Ok? <==> uid in profiles
      ensures r.Ok? ==> r.value == profiles[uid] && r.value.user == uid
      ensures r.Err? ==> r.failure == NotFound("there is no profile for this user")
    {
      var found := Find(profiles, uid);
      if found.None? {
        return Err(NotFound("there is no profile for this user"));
      }
      r := Ok(found.value);
    }

    /** GET /user/:user_id: that user's profile, or "profile not found". */
    method GetProfileByUser(uid: UserId) returns (r: Result<Profile>)
      requires Valid()
      ensures r.Ok? <==> uid in profiles
      ensures r.Ok? ==> r.value == profiles[uid] && r.value.user == uid
      ensures r.Err? ==> r.failure == NotFound("profile not found")
    {
      var found := Find(profiles, uid);
      if found.None? {
        return Err(NotFound("profile not found"));
      }
      r := Ok(found.value);
    }

    /** POST /: validate, build the field set, then update the caller's
        profile with `$set` or create it. */
    method CreateOrUpdate(uid: UserId, inp: ProfileInput) returns (r: Result<Profile>)
      requires Valid()
      modifies this
      ensures Valid()
      ensures users == old(users) && posts == old(posts)
      ensures ProfileErrors(inp) != [] ==>
                r == Err(Invalid(ProfileErrors(inp))) && profiles == old(profiles)
      ensures ProfileErrors(inp) == [] ==>
                && profiles == old(profiles)[uid := Upserted(Find(old(profiles), uid), ProfileFields(uid, inp))]
                && profiles.Keys == old(profiles).Keys + {uid}
                && r == Ok(profiles[uid])
    {
      var errors := ProfileErrors(inp);
      if errors != [] {
        return Err(Invalid(errors));
      }
      var fs := BuildProfileFields(uid, inp);
      var found := Find(profiles, uid);
      UpsertWellFormed(found, uid, inp);
      var profile: Profile;
      if found.Some? {
        profile := ApplySet(found.value, fs);
      } else {
        profile := NewProfile(fs);
      }
      profiles := profiles[uid := profile];
      r := Ok(profile);
    }

    /** PUT /experience: validate, then put the new entry at the front of the
        caller's experience list. With no profile, `profile.experience`
        throws and the handler answers with a server error. */
    method AddExperience(uid: UserId, fields: ExperienceFields, newId: EntryId)
      returns (r: Result<Profile>)
      requires Valid()
      requires uid in profiles ==> newId !in Ids(profiles[uid].experience)
      modifies this
      ensures Valid()
      ensures users == old(users) && posts == old(posts)
      ensures ExperienceErrors(fields) != [] ==>
                r == Err(Invalid(ExperienceErrors(fields))) && profiles == old(profiles)
      ensures ExperienceErrors(fields) == [] && uid !in old(profiles) ==>
                r == Err(ServerError) && profiles == old(profiles)
      ensures ExperienceErrors(fields) == [] && uid in old(profiles) ==>
                var p := old(profiles)[uid];
                && profiles == old(profiles)[uid := p.(experience := [Entry(newId, fields)] + p.experience)]
                && r == Ok(profiles[uid])
    {
      var errors := ExperienceErrors(fields);
      if errors != [] {
        return Err(Invalid(errors));
      }
      var found := Find(profiles, uid);
      if found.None? {
        return Err(ServerError);
      }
      var profile := found.value;
      var entry := Entry(newId, fields);
      UnshiftDistinct(entry, profile.experience);
      profile := profile.(experience := [entry] + profile.experience);
      profiles := profiles[uid := profile];
      r := Ok(profile);
    }

    /** DELETE /experience/:exp_id: splice out the entry at the index
        `indexOf` reports; an unknown id removes the last entry. */
    method RemoveExperience(uid: UserId, id: EntryId) returns (r: Result<Profile>)
      requires Valid()
      modifies this
      ensures Valid()
      ensures users == old(users) && posts == old(posts)
      ensures uid !in old(profiles) ==> r == Err(ServerError) && profiles == old(profiles)
      ensures uid in old(profiles) ==>
                var p := old(profiles)[uid];
                && profiles == old(profiles)[uid := p.(experience := RemoveById(p.experience, id))]
                && r == Ok(profiles[uid])
    {
      var found := Find(profiles, uid);
      if found.None? {
        return Err(ServerError);
      }
      var profile := found.value;
      var list := RemoveById(profile.experience, id);
      profile := profile.(experience := list);
      profiles := profiles[uid := profile];
      r := Ok(profile);
    }

    /** PUT /education: validate, then put the new entry at the front of the
        caller's education list. */
    method AddEducation(uid: UserId, fields: EducationFields, newId: EntryId)
      returns (r: Result<Profile>)
      requires Valid()
      requires uid in profiles ==> newId !in Ids(profiles[uid].education)
      modifies this
      ensures Valid()
      ensures users == old(users) && posts == old(posts)
      ensures EducationErrors(fields) != [] ==>
                r == Err(Invalid(EducationErrors(fields))) && profiles == old(profiles)
      ensures EducationErrors(fields) == [] && uid !in old(profiles) ==>
                r == Err(ServerError) && profiles == old(profiles)
      ensures EducationErrors(fields) == [] && uid in old(profiles) ==>
                var p := old(profiles)[uid];
                && profiles == old(profiles)[uid := p.(education := [Entry(newId, fields)] + p.education)]
                && r == Ok(profiles[uid])
    {
      var errors := EducationErrors(fields);
      if errors != [] {
        return Err(Invalid(errors));
      }
      var found := Find(profiles, uid);
      if found.None? {
        return Err(ServerError);
      }
      var profile := found.value;
      var entry := Entry(newId, fields);
      UnshiftDistinct(entry, profile.education);
      profile := profile.(education := [entry] + profile.education);
      profiles := profiles[uid := profile];
      r := Ok(profile);
    }

    /** DELETE /education/:edu_id: as for experience. */
    method RemoveEducation(uid: UserId, id: EntryId) returns (r: Result<Profile>)
      requires Valid()
      modifies this
      ensures Valid()
      ensures users == old(users) && posts == old(posts)
      ensures uid !in old(profiles) ==> r == Err(ServerError) && profiles == old(profiles)
      ensures uid in old(profiles) ==>
                var p := old(profiles)[uid];
                && profiles == old(profiles)[uid := p.(education := RemoveById(p.education, id))]
                && r == Ok(profiles[uid])
    {
      var found := Find(profiles, uid);
      if found.None? {
        return Err(ServerError);
      }
      var profile := found.value;
      var list := RemoveById(profile.education, id);
      profile := profile.(education := list);
      profiles := profiles[uid := profile];
      r := Ok(profile);
    }

    /** DELETE /: remove the caller's posts, then the profile, then the user. */
    method DeleteCascade(uid: UserId) returns (msg: string)
      requires Valid()
      modifies this
      ensures Valid()
      ensures posts == PostsNotBy(old(posts), uid)
      ensures profiles == old(profiles) - {uid}
      ensures users == old(users) - {uid}
      ensures forall p :: p in posts ==> posts[p].user != uid
      ensures uid !in profiles && uid !in users
      ensures forall u :: u in old(profiles) && u != uid ==> u in profiles && profiles[u] == old(profiles)[u]
      ensures forall u :: u in old(users) && u != uid ==> u in users && users[u] == old(users)[u]
      ensures msg == "user removed"
    {
      posts := PostsNotBy(posts, uid);
      profiles := profiles - {uid};
      users := users - {uid};
      msg := "user removed";
    }
  }

  /** Two additions to one profile: the later entry comes first, the earlier
      one right after it, and the older entries follow in their order. */
  method AddExperienceTwice(s: Store, uid: UserId, first: ExperienceFields, second: ExperienceFields,
                            id1: EntryId, id2: EntryId)
    requires s.Valid() && uid in s.profiles
    requires ExperienceErrors(first) == [] && ExperienceErrors(second) == []
    requires id1 != id2
    requires id1 !in Ids(s.profiles[uid].experience) && id2 !in Ids(s.profiles[uid].experience)
    modifies s
    ensures s.Valid() && uid in s.profiles
    ensures s.profiles[uid].experience ==
              [Entry(id2, second), Entry(id1, first)] + old(s.profiles[uid].experience)
  {
    var r1 := s.AddExperience(uid, first, id1);
    assert Ids(s.profiles[uid].experience) == [id1] + Ids(old(s.profiles[uid].experience));
    var r2 := s.AddExperience(uid, second, id2);
  }

  /** A profile created after a cascade delete starts afresh: no experience,
      no education, whatever the user had before. */
  lemma RecreatedAfterDelete(profiles: map<UserId, Profile>, uid: UserId, inp: ProfileInput)
    ensures var p := Upserted(Find(profiles - {uid}, uid), ProfileFields(uid, inp));
            p == NewProfile(ProfileFields(uid, inp)) && p.experience == [] && p.education == []
  {
  }
}
