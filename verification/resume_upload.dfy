/**
 * `ResumeUploadView.post`: process an uploaded résumé and store what was extracted on the
 * uploader's profile, creating a blank profile first when the user has none.
 */
module ResumeUpload {
  import opened Wrappers
  import opened ResumeParser
  import opened Profiles

  /** The profiles table, keyed by user id. */
  type ProfileStore = map<string, SeekerProfile>

  datatype Body =
    | ErrorBody(error: string)
    | UploadBody(message: string, extractedSkills: seq<string>, extractedExperience: Experience)

  datatype Response = Response(status: nat, body: Body)

  const ResumeRequired := "Resume file required"
  const UploadSucceeded := "Resume uploaded successfully"

  /** An uploaded file is present when the request carries one with a non-empty name. */
  predicate Present(upload: Option<ResumeFile>) {
    upload.Some? && upload.value.name != ""
  }

  /** The profile `get_or_create` yields for `userId`. */
  function ProfileOf(store: ProfileStore, userId: string): (p: SeekerProfile)
    ensures userId !in store ==> p == BlankProfile(userId)
    ensures userId in store ==> p == store[userId]
  {
    if userId in store then store[userId] else BlankProfile(userId)
  }

  /**
   * The upload handler: returns the response and the profiles table afterwards. Processing
   * happens before the profile is fetched, so a failure leaves the table as it was.
   */
  function Upload(store: ProfileStore, userId: string, upload: Option<ResumeFile>): (r: (Response, ProfileStore))
    ensures !Present(upload) ==> r == (Response(400, ErrorBody(ResumeRequired)), store)
    ensures Present(upload) && ProcessResume(upload.value).Err? ==>
      r == (Response(500, ErrorBody(ProcessResume(upload.value).error)), store)
    ensures r.0.status == 200 <==> Present(upload) && ProcessResume(upload.value).Ok?
    ensures forall u :: u in store && u != userId ==> u in r.1 && r.1[u] == store[u]
    ensures r.1.Keys <= store.Keys + {userId}
  {
    if !Present(upload) then (Response(400, ErrorBody(ResumeRequired)), store)
    else
      match ProcessResume(upload.value)
      case Err(e) => (Response(500, ErrorBody(e)), store)
      case Ok(data) =>
        var profile := ProfileOf(store, userId).(
          resume := upload.value.name,
          extractedSkills := data.skills,
          extractedExperience := Some(data.experience));
        (Response(200, UploadBody(UploadSucceeded, data.skills, data.experience)), store[userId := profile])
  }

  /**
   * After a successful upload the stored profile holds exactly the extracted skills and experience
   * that the response echoes, and the file name; every other field is what the profile had before.
   */
  lemma UploadStoresWhatItEchoes(store: ProfileStore, userId: string, upload: Option<ResumeFile>)
    requires Present(upload) && ExtractText(upload.value).Ok?
    ensures var (resp, store') := Upload(store, userId, upload);
      && resp.status == 200
      && userId in store'
      && resp.body.UploadBody?
      && store'[userId].extractedSkills == resp.body.extractedSkills == ProcessResume(upload.value).value.skills
      && store'[userId].extractedExperience == Some(resp.body.extractedExperience)
      && resp.body.extractedExperience == ProcessResume(upload.value).value.experience
      && store'[userId].resume == upload.value.name
      && store'[userId] == ProfileOf(store, userId).(
           resume := store'[userId].resume,
           extractedSkills := store'[userId].extractedSkills,
           extractedExperience := store'[userId].extractedExperience)
  {
  }

  /** An upload never touches the seven completion fields, so completion stays as it was. */
  lemma UploadKeepsCompletion(store: ProfileStore, userId: string, upload: Option<ResumeFile>)
    requires userId in store
    ensures var store' := Upload(store, userId, upload).1;
      userId in store' && RequiredFields(store'[userId]) == RequiredFields(store[userId])
  {
  }
}
