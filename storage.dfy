/** The extension's storage service: typed reads and writes of the key-value
    store, with defaults for missing keys, the profile upsert, the list of
    saved job descriptions and the per-host application sessions. The browser's
    asynchronous store is modelled as the fields of one object, a missing key
    as `None`. */
module Storage {
  import opened Wrappers
  import opened Schema

  // ---------------------------------------------------------------------------
  // The profile list

  /** The position of the first profile with the given id (`findIndex`) */
  function ProfileIndex(profiles: seq<UserProfile>, id: string): (r: Option<nat>)
    ensures r.Some? ==> r.value < |profiles| && profiles[r.value].id == id
    ensures r.Some? ==> forall j :: 0 <= j < r.value ==> profiles[j].id != id
    ensures r.None? ==> forall j :: 0 <= j < |profiles| ==> profiles[j].id != id
  {
    if |profiles| == 0 then None
    else if profiles[0].id == id then Some(0)
    else
      var r := ProfileIndex(profiles[1..], id);
      if r.Some? then Some(r.value + 1) else None
  }

  /** The list after `saveProfile(profile)`: the first profile with the same id
      replaced in place, or the profile appended when there is none */
  function Upsert(profiles: seq<UserProfile>, profile: UserProfile): seq<UserProfile> {
    var index := ProfileIndex(profiles, profile.id);
    if index.Some? then profiles[index.value := profile] else profiles + [profile]
  }

  /** An upsert replaces exactly the first profile with the same id and keeps
      every other profile in its place, or appends when the id is new; the list
      grows by at most one. */
  lemma UpsertSpec(profiles: seq<UserProfile>, profile: UserProfile)
    ensures var r := Upsert(profiles, profile);
      && |profiles| <= |r| <= |profiles| + 1
      && ((exists i :: 0 <= i < |profiles| && profiles[i].id == profile.id) ==>
            && |r| == |profiles|
            && exists k :: 0 <= k < |r| && r[k] == profile && profiles[k].id == profile.id
                 && (forall j :: 0 <= j < k ==> profiles[j].id != profile.id)
                 && (forall j :: 0 <= j < |r| && j != k ==> r[j] == profiles[j]))
      && ((forall i :: 0 <= i < |profiles| ==> profiles[i].id != profile.id) ==>
            r == profiles + [profile])
  {
    var index := ProfileIndex(profiles, profile.id);
    if index.Some? {
      var r := Upsert(profiles, profile);
      assert r[index.value] == profile;
    }
  }

  /** After an upsert, looking the id up finds the saved profile. */
  lemma UpsertThenFind(profiles: seq<UserProfile>, profile: UserProfile)
    ensures var r := Upsert(profiles, profile);
      ProfileIndex(r, profile.id).Some? && r[ProfileIndex(r, profile.id).value] == profile
  {
    var r := Upsert(profiles, profile);
    var index := ProfileIndex(profiles, profile.id);
    var found := ProfileIndex(r, profile.id);
    if index.Some? {
      assert r[index.value].id == profile.id;
      assert found.Some?;
      assert found.value == index.value;
    } else {
      assert r[|profiles|].id == profile.id;
      assert found.Some?;
    }
  }

  /** Saving the same profile twice is the same as saving it once. */
  lemma UpsertIdempotent(profiles: seq<UserProfile>, profile: UserProfile)
    ensures Upsert(Upsert(profiles, profile), profile) == Upsert(profiles, profile)
  {
    var r := Upsert(profiles, profile);
    UpsertThenFind(profiles, profile);
    assert r[ProfileIndex(r, profile.id).value := profile] == r;
  }

  // ---------------------------------------------------------------------------
  // Job descriptions and sessions

  /** The first job with the given id (`find`) */
  function FindJob(jobs: seq<JobDescription>, id: string): (r: Option<JobDescription>)
    ensures r.Some? ==> r.value in jobs && r.value.id == id
    ensures r.None? <==> forall j :: 0 <= j < |jobs| ==> jobs[j].id != id
  {
    if |jobs| == 0 then None
    else if jobs[0].id == id then Some(jobs[0])
    else FindJob(jobs[1..], id)
  }

  /** `find` returns the first job with the id: every job before it has
      another id. */
  lemma {:induction false} FindJobIsFirst(jobs: seq<JobDescription>, id: string)
    requires FindJob(jobs, id).Some?
    ensures exists i :: 0 <= i < |jobs| && jobs[i] == FindJob(jobs, id).value
              && forall j :: 0 <= j < i ==> jobs[j].id != id
  {
    if jobs[0].id != id {
      var tail := jobs[1..];
      FindJobIsFirst(tail, id);
      var i :| 0 <= i < |tail| && tail[i] == FindJob(tail, id).value
               && forall j :: 0 <= j < i ==> tail[j].id != id;
      assert jobs[i + 1] == tail[i];
      forall j | 0 <= j < i + 1 ensures jobs[j].id != id {
        if j > 0 {
          assert jobs[j] == tail[j - 1];
        }
      }
    } else {
      assert jobs[0] == FindJob(jobs, id).value;
    }
  }

  /** Appending a job whose id no earlier job has makes it the one found. */
  lemma {:induction false} FindAppended(jobs: seq<JobDescription>, job: JobDescription)
    requires forall j :: 0 <= j < |jobs| ==> jobs[j].id != job.id
    ensures FindJob(jobs + [job], job.id) == Some(job)
  {
    if |jobs| > 0 {
      assert (jobs + [job])[1..] == jobs[1..] + [job];
      FindAppended(jobs[1..], job);
    } else {
      assert jobs + [job] == [job];
    }
  }

  /** A missing id or the empty id is falsy: no current job description */
  function CurrentJob(currentId: Option<string>, jobs: seq<JobDescription>): (r: Option<JobDescription>)
    ensures currentId.None? || currentId.value == "" ==> r.None?
    ensures r.Some? ==> r.value.id == currentId.value
  {
    if currentId.None? || currentId.value == "" then None
    else FindJob(jobs, currentId.value)
  }

  /** Saving a job description whose id is not empty and new to the list
      makes it the current job description; with the empty id there is none. */
  lemma SavedJobIsCurrent(jobs: seq<JobDescription>, job: JobDescription)
    ensures job.id == "" ==> CurrentJob(Some(job.id), jobs + [job]).None?
    ensures job.id != "" && (forall j :: 0 <= j < |jobs| ==> jobs[j].id != job.id) ==>
              CurrentJob(Some(job.id), jobs + [job]) == Some(job)
  {
    if job.id != "" && (forall j :: 0 <= j < |jobs| ==> jobs[j].id != job.id) {
      FindAppended(jobs, job);
    }
  }

  // ---------------------------------------------------------------------------
  // The store

  /** `chrome.storage.local` with the keys of the storage schema */
  class Store {
    var profiles: Option<seq<UserProfile>>
    var defaultProfileId: Option<string>
    var preferences: Option<UserPreferences>
    var llmConfig: Option<LlmConfig>
    var jobDescriptions: Option<seq<JobDescription>>
    var currentJobDescriptionId: Option<string>
    var sessions: Option<map<string, ApplicationSession>>

    /** A store with no keys, as on first install */
    constructor ()
      ensures profiles.None? && defaultProfileId.None? && preferences.None? && llmConfig.None?
      ensures jobDescriptions.None? && currentJobDescriptionId.None? && sessions.None?
    {
      profiles := None;
      defaultProfileId := None;
      preferences := None;
      llmConfig := None;
      jobDescriptions := None;
      currentJobDescriptionId := None;
      sessions := None;
    }

    /** `getProfiles()`: the stored list, or none */
    function GetProfiles(): (r: seq<UserProfile>)
      reads this
      ensures profiles.None? ==> r == []
      ensures profiles.Some? ==> r == profiles.value
    {
      profiles.GetOr([])
    }

    /** `saveProfile(profile)`: the upsert, written back */
    method SaveProfile(profile: UserProfile)
      modifies this
      ensures profiles == Some(Upsert(old(GetProfiles()), profile))
      ensures defaultProfileId == old(defaultProfileId) && preferences == old(preferences)
      ensures llmConfig == old(llmConfig) && jobDescriptions == old(jobDescriptions)
      ensures currentJobDescriptionId == old(currentJobDescriptionId) && sessions == old(sessions)
    {
      var list := GetProfiles();
      var index := FindProfileIndex(list, profile.id);
      if index >= 0 {
        list := list[index := profile];
      } else {
        list := list + [profile];
      }
      profiles := Some(list);
    }

    /** `setDefaultProfileId(id)`; `getDefaultProfileId()` then reads it back */
    method SetDefaultProfileId(id: string)
      modifies this
      ensures GetDefaultProfileId() == Some(id)
      ensures profiles == old(profiles) && preferences == old(preferences)
      ensures llmConfig == old(llmConfig) && jobDescriptions == old(jobDescriptions)
      ensures currentJobDescriptionId == old(currentJobDescriptionId) && sessions == old(sessions)
    {
      defaultProfileId := Some(id);
    }

    /** `getDefaultProfileId()`: the stored id, or none */
    function GetDefaultProfileId(): Option<string>
      reads this
    {
      defaultProfileId
    }

    /** `getPreferences()`: the stored preferences, or the defaults */
    function GetPreferences(): (r: UserPreferences)
      reads this
      ensures preferences.None? ==> r == DefaultPreferences
      ensures preferences.Some? ==> r == preferences.value
    {
      preferences.GetOr(DefaultPreferences)
    }

    /** `savePreferences(prefs)` */
    method SavePreferences(prefs: UserPreferences)
      modifies this
      ensures preferences == Some(prefs)
      ensures profiles == old(profiles) && defaultProfileId == old(defaultProfileId)
      ensures llmConfig == old(llmConfig) && jobDescriptions == old(jobDescriptions)
      ensures currentJobDescriptionId == old(currentJobDescriptionId) && sessions == old(sessions)
    {
      preferences := Some(prefs);
    }

    /** `getLLMConfig()`: the stored configuration, or the defaults */
    function GetLlmConfig(): (r: LlmConfig)
      reads this
      ensures llmConfig.None? ==> r == DefaultLlmConfig
      ensures llmConfig.Some? ==> r == llmConfig.value
    {
      llmConfig.GetOr(DefaultLlmConfig)
    }

    /** `saveLLMConfig(config)` */
    method SaveLlmConfig(config: LlmConfig)
      modifies this
      ensures llmConfig == Some(config)
      ensures profiles == old(profiles) && defaultProfileId == old(defaultProfileId)
      ensures preferences == old(preferences) && jobDescriptions == old(jobDescriptions)
      ensures currentJobDescriptionId == old(currentJobDescriptionId) && sessions == old(sessions)
    {
      llmConfig := Some(config);
    }

    /** `getJobDescriptions()`: the stored list, or none */
    function GetJobDescriptions(): (r: seq<JobDescription>)
      reads this
      ensures jobDescriptions.None? ==> r == []
      ensures jobDescriptions.Some? ==> r == jobDescriptions.value
    {
      jobDescriptions.GetOr([])
    }

    /** `saveJobDescription(job)`: append, duplicates included, and make the
        job's id the current one */
    method SaveJobDescription(job: JobDescription)
      modifies this
      ensures jobDescriptions == Some(old(GetJobDescriptions()) + [job])
      ensures currentJobDescriptionId == Some(job.id)
      ensures GetCurrentJobDescription() == CurrentJob(Some(job.id), old(GetJobDescriptions()) + [job])
      ensures profiles == old(profiles) && defaultProfileId == old(defaultProfileId)
      ensures preferences == old(preferences) && llmConfig == old(llmConfig) && sessions == old(sessions)
    {
      var jobs := GetJobDescriptions();
      jobs := jobs + [job];
      jobDescriptions := Some(jobs);
      currentJobDescriptionId := Some(job.id);
    }

    /** `getCurrentJobDescription()`: the first job with the current id */
    function GetCurrentJobDescription(): (r: Option<JobDescription>)
      reads this
      ensures r == CurrentJob(currentJobDescriptionId, GetJobDescriptions())
    {
      if currentJobDescriptionId.None? || currentJobDescriptionId.value == "" then None
      else FindJob(GetJobDescriptions(), currentJobDescriptionId.value)
    }

    /** `getSession(key)` */
    function GetSession(key: string): (r: Option<ApplicationSession>)
      reads this
      ensures r.Some? <==> sessions.Some? && key in sessions.value
      ensures r.Some? ==> r.value == sessions.value[key]
    {
      if sessions.Some? && key in sessions.value then Some(sessions.value[key]) else None
    }

    /** `saveSession(key, session)`: set one entry of the session map */
    method SaveSession(key: string, session: ApplicationSession)
      modifies this
      ensures sessions == Some(old(sessions.GetOr(map[]))[key := session])
      ensures GetSession(key) == Some(session)
      ensures forall other :: other != key ==> GetSession(other) == old(GetSession(other))
      ensures profiles == old(profiles) && defaultProfileId == old(defaultProfileId)
      ensures preferences == old(preferences) && llmConfig == old(llmConfig)
      ensures jobDescriptions == old(jobDescriptions) && currentJobDescriptionId == old(currentJobDescriptionId)
    {
      var all := sessions.GetOr(map[]);
      all := all[key := session];
      sessions := Some(all);
    }
  }

  /** The `findIndex` call of `saveProfile`, as the loop it performs: -1 when
      no profile has the id */
  method FindProfileIndex(profiles: seq<UserProfile>, id: string) returns (index: int)
    ensures -1 <= index
    ensures index == -1 <==> ProfileIndex(profiles, id).None?
    ensures index >= 0 ==> ProfileIndex(profiles, id) == Some(index)
  {
    var i := 0;
    while i < |profiles|
      invariant 0 <= i <= |profiles|
      invariant forall j :: 0 <= j < i ==> profiles[j].id != id
    {
      if profiles[i].id == id {
        return i;
      }
      i := i + 1;
    }
    return -1;
  }
}
