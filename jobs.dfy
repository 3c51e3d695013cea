/**
 * The job table (app.py `generated_files`): one entry per processed upload,
 * keyed by a job identifier, holding the track, the transcript, the path of
 * the kept video and the placeholder map. `index` stores a new entry,
 * `download` reads a field of one, and `update_speakers` rewrites the track of
 * one in place.
 */
module Jobs {
  import opened Wrappers
  import opened Text
  import opened Diarization
  import opened Placeholders
  import opened Subtitles
  import opened Rename

  /** A stored job: the dict `{"vtt", "transcript", "video_path", "placeholder_map"}`. */
  datatype Job = Job(vtt: string, transcript: string, videoPath: string, placeholderMap: map<string, string>)

  /** The value of one field of a job: text, or the placeholder map. */
  datatype FieldValue = TextValue(text: string) | Mapping(entries: map<string, string>)

  /** The field names a stored job has. */
  const FieldNames: set<string> := {"vtt", "transcript", "video_path", "placeholder_map"}

  /** `job[name]`, or `None` when the job has no such field. */
  function Field(job: Job, name: string): (r: Option<FieldValue>)
    ensures r.Some? <==> name in FieldNames
    ensures r.Some? && r.value.Mapping? <==> name == "placeholder_map"
  {
    if name == "vtt" then Some(TextValue(job.vtt))
    else if name == "transcript" then Some(TextValue(job.transcript))
    else if name == "video_path" then Some(TextValue(job.videoPath))
    else if name == "placeholder_map" then Some(Mapping(job.placeholderMap))
    else None
  }

  /**
   * The response of `download`: not found (404), an attachment with its file
   * name and media type, or a server error (500) when the field is not text
   * and cannot be encoded.
   */
  datatype DownloadResult =
    | NotFound
    | Attachment(content: string, filename: string, mimetype: string)
    | ServerError

  /** The file name and media type `download` sends a field under. */
  function AttachmentName(fileType: string): (string, string) {
    if fileType == "vtt" then ("subtitles.vtt", "text/vtt")
    else if fileType == "transcript" then ("transcript.txt", "text/plain")
    else ("file.txt", "text/plain")
  }

  class JobTable {
    var jobs: map<string, Job>

    constructor()
      ensures jobs == map[]
    {
      jobs := map[];
    }

    /**
     * The end of `index`: builds the track of `segments` and stores the job
     * under `uid`, which the caller draws fresh. The other jobs stay as they
     * were.
     */
    method Index(uid: string, segments: seq<Segment>, diarization: Option<seq<Turn>>,
                 transcript: string, videoPath: string)
      modifies this
      ensures jobs == old(jobs)[uid := Job(Track(segments, diarization), transcript, videoPath,
                                           Allocation(Speakers(segments, diarization)))]
      ensures Download(uid, Some("vtt")) == Attachment(Track(segments, diarization), "subtitles.vtt", "text/vtt")
      ensures Download(uid, Some("transcript")) == Attachment(transcript, "transcript.txt", "text/plain")
      ensures Download(uid, Some("placeholder_map")) == ServerError
    {
      var vtt, placeholderMap, counter := BuildTrack(segments, diarization);
      jobs := jobs[uid := Job(vtt, transcript, videoPath, placeholderMap)];
    }

    /**
     * `download`: an unknown job, a missing `type` or a name that is not a
     * field is not found; the placeholder map cannot be sent; any other field
     * is sent as it is stored.
     */
    function Download(uid: string, fileType: Option<string>): (r: DownloadResult)
      reads this
      ensures r.NotFound? <==> uid !in jobs || fileType.None? || fileType.value !in FieldNames
      ensures r.ServerError? <==> uid in jobs && fileType == Some("placeholder_map")
      ensures r.Attachment? ==> uid in jobs && fileType.Some?
      ensures r.Attachment? ==> Field(jobs[uid], fileType.value) == Some(TextValue(r.content))
      ensures r.Attachment? ==> (r.filename, r.mimetype) == AttachmentName(fileType.value)
    {
      if uid !in jobs || fileType.None? then NotFound
      else match Field(jobs[uid], fileType.value)
        case None => NotFound
        case Some(Mapping(_)) => ServerError
        case Some(TextValue(content)) =>
          var (filename, mimetype) := AttachmentName(fileType.value);
          Attachment(content, filename, mimetype)
    }

    /**
     * `update_speakers`: an unknown job is not found and nothing changes;
     * otherwise the job's track becomes the track with the form's renames
     * applied, and nothing else changes.
     */
    method UpdateSpeakers(uid: string, form: seq<(string, string)>) returns (found: bool)
      modifies this
      ensures found <==> uid in old(jobs)
      ensures !found ==> jobs == old(jobs)
      ensures found ==> jobs == old(jobs)[uid := old(jobs)[uid].(vtt := ApplyRenames(old(jobs)[uid].vtt, NewMapping(form)))]
      ensures forall other: string, name: string :: other != uid ==>
        Download(other, Some(name)) == old(Download(other, Some(name)))
      ensures forall name: string :: name != "vtt" ==> Download(uid, Some(name)) == old(Download(uid, Some(name)))
    {
      if uid !in jobs {
        return false;
      }
      var mapping := BuildMapping(form);
      var updated := RenameTrack(jobs[uid].vtt, mapping);
      jobs := jobs[uid := jobs[uid].(vtt := updated)];
      return true;
    }
  }

  /** Whatever a table holds, the stored track of a job is what `download` sends for `vtt`. */
  lemma DownloadStoredTrack(table: JobTable, uid: string)
    requires uid in table.jobs
    ensures table.Download(uid, Some("vtt")) == Attachment(table.jobs[uid].vtt, "subtitles.vtt", "text/vtt")
  {
  }

  /**
   * A job created from `segments` and then renamed with every field left
   * blank still downloads the track built from `segments`.
   */
  method BlankRenameKeepsTrack(uid: string, segments: seq<Segment>, diarization: Option<seq<Turn>>,
                               transcript: string, videoPath: string, form: seq<(string, string)>)
    returns (download: DownloadResult)
    requires forall i :: 0 <= i < |form| ==> Strip(form[i].1) == ""
    ensures download == Attachment(Track(segments, diarization), "subtitles.vtt", "text/vtt")
  {
    var table := new JobTable();
    table.Index(uid, segments, diarization, transcript, videoPath);
    var found := table.UpdateSpeakers(uid, form);
    assert found;
    BlankFormKeepsTrack(Track(segments, diarization), form);
    download := table.Download(uid, Some("vtt"));
  }
}
