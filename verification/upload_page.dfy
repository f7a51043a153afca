/**
 * The upload page (frontend/src/pages/Upload.jsx): choosing a job-description
 * file or text and a list of resume PDFs, and the guards of the two submit
 * handlers.
 *
 * The page state is a value; each handler maps the current state (and, for
 * the submits, whether the upload succeeded) to the next state and the
 * notification it shows. The notification's timed hiding and the navigation
 * to the dashboard are not modelled.
 */
module UploadPage {
  import opened Common
  import opened Text
  import opened Lists

  /** The browser `File` fields the page reads. */
  datatype File = File(name: string, mimeType: string)

  /** `isPDF` (frontend/src/utils/helpers.js): the MIME type is exactly `application/pdf`. */
  predicate IsPdf(f: File) {
    f.mimeType == "application/pdf"
  }

  /** The notification banner: its type and message. */
  datatype Notice = Notice(kind: string, message: string)

  datatype UploadState = UploadState(jdFile: Option<File>, jdText: string, resumeFiles: seq<File>)

  const DroppedWarning := Notice("warning", "Some files were not added. Only PDF files are supported.")
  const NotPdfError := Notice("error", "Please upload a PDF file")
  const NothingToSendError := Notice("error", "Please upload a file or enter job description text")
  const JdUploaded := Notice("success", "Job description uploaded successfully!")
  const JdFailed := Notice("error", "Error uploading job description. Please try again.")
  const NoResumeError := Notice("error", "Please upload at least one resume")
  const ResumesFailed := Notice("error", "Error uploading resumes. Please try again.")

  /** `handleJdFileChange`: no file leaves the state alone; a PDF becomes the job
      description file; anything else is refused with an error. */
  function ChooseJdFile(st: UploadState, file: Option<File>): (r: (UploadState, Option<Notice>))
    ensures file.None? ==> r == (st, None)
    ensures file.Some? && IsPdf(file.value) ==> r.0 == st.(jdFile := file) && r.1.None?
    ensures file.Some? && !IsPdf(file.value) ==> r.0 == st && r.1 == Some(NotPdfError)
  {
    if file.None? then (st, None)
    else if IsPdf(file.value) then (st.(jdFile := file), None)
    else (st, Some(NotPdfError))
  }

  /** `handleResumeFileChange`: the new selection replaces the list by its PDFs, in order;
      a warning appears exactly when some chosen file was not a PDF. */
  function ChooseResumes(st: UploadState, files: seq<File>): (r: (UploadState, Option<Notice>))
    ensures r.0.jdFile == st.jdFile && r.0.jdText == st.jdText
    ensures IsSubseq(r.0.resumeFiles, files)
    ensures forall f :: f in r.0.resumeFiles <==> f in files && IsPdf(f)
    ensures forall f :: multiset(r.0.resumeFiles)[f] == if IsPdf(f) then multiset(files)[f] else 0
    ensures r.1.Some? <==> exists i :: 0 <= i < |files| && !IsPdf(files[i])
    ensures r.1.Some? ==> r.1.value == DroppedWarning
  {
    var valid := Filter(files, IsPdf);
    FilterIsSubseq(files, IsPdf);
    FilterCounts(files, IsPdf);
    FilterKeepsAll(files, IsPdf);
    (st.(resumeFiles := valid), if |valid| != |files| then Some(DroppedWarning) else None)
  }

  /** `filter((_, i) => i !== index)`: every element except the one at `index`. */
  function DropIndex<T>(s: seq<T>, index: int): (r: seq<T>)
    ensures 0 <= index < |s| ==> r == s[..index] + s[index + 1..]
    ensures !(0 <= index < |s|) ==> r == s
    decreases |s|
  {
    if |s| == 0 then []
    else
      var n := |s| - 1;
      assert s == s[..n] + [s[n]];
      DropIndex(s[..n], index) + (if n == index then [] else [s[n]])
  }

  /** `removeResumeFile`: the file at `index` leaves the list, the others keep their order. */
  function RemoveResumeFile(st: UploadState, index: int): (r: UploadState)
    ensures r.jdFile == st.jdFile && r.jdText == st.jdText
    ensures 0 <= index < |st.resumeFiles| ==>
              && |r.resumeFiles| == |st.resumeFiles| - 1
              && r.resumeFiles[..index] == st.resumeFiles[..index]
              && r.resumeFiles[index..] == st.resumeFiles[index + 1..]
    ensures !(0 <= index < |st.resumeFiles|) ==> r == st
  {
    st.(resumeFiles := DropIndex(st.resumeFiles, index))
  }

  /** What the job-description form sends: the file when there is one, else the text. */
  datatype JdPayload = FilePayload(file: File) | TextPayload(text: string)

  /** The guard and form building of `handleJdSubmit`: nothing is sent when there is no
      file and the text is blank after trimming; a file takes precedence over any text,
      and text is sent as typed. */
  function JdPayloadOf(jdFile: Option<File>, jdText: string): (r: Option<JdPayload>)
    ensures r.None? <==> jdFile.None? && Trim(jdText) == ""
    ensures jdFile.Some? ==> r == Some(FilePayload(jdFile.value))
    ensures jdFile.None? && r.Some? ==> r.value == TextPayload(jdText)
  {
    if jdFile.None? && Trim(jdText) == "" then None
    else if jdFile.Some? then Some(FilePayload(jdFile.value))
    else Some(TextPayload(jdText))
  }

  /** `handleJdSubmit`: a refused submit shows an error and changes nothing; a successful
      upload clears the file and the text; a failed one keeps them. The resume list is
      never touched. */
  function SubmitJd(st: UploadState, uploadOk: bool): (r: (UploadState, Notice))
    ensures r.0.resumeFiles == st.resumeFiles
    ensures JdPayloadOf(st.jdFile, st.jdText).None? ==> r == (st, NothingToSendError)
    ensures JdPayloadOf(st.jdFile, st.jdText).Some? && uploadOk ==>
              r.0.jdFile.None? && r.0.jdText == "" && r.1 == JdUploaded
    ensures JdPayloadOf(st.jdFile, st.jdText).Some? && !uploadOk ==> r == (st, JdFailed)
  {
    if JdPayloadOf(st.jdFile, st.jdText).None? then (st, NothingToSendError)
    else if uploadOk then (st.(jdFile := None, jdText := ""), JdUploaded)
    else (st, JdFailed)
  }

  /** After a successful job-description upload the form is empty, so submitting again
      is refused. */
  lemma JdSubmitClearsForm(st: UploadState)
    requires JdPayloadOf(st.jdFile, st.jdText).Some?
    ensures SubmitJd(SubmitJd(st, true).0, true) == (SubmitJd(st, true).0, NothingToSendError)
  {
    var cleared := SubmitJd(st, true).0;
    assert Trim(cleared.jdText) == "";
  }

  /** The success message: the number of files, then ` resume(s) uploaded successfully!`. */
  function ResumesUploaded(n: nat): Notice {
    Notice("success", NatToString(n) + " resume(s) uploaded successfully!")
  }

  /** `handleResumeSubmit`: refused with an error when no resume is listed; a successful
      upload reports the count and clears the list; a failed one keeps it. The
      job-description fields are never touched. */
  function SubmitResumes(st: UploadState, uploadOk: bool): (r: (UploadState, Notice))
    ensures r.0.jdFile == st.jdFile && r.0.jdText == st.jdText
    ensures |st.resumeFiles| == 0 ==> r == (st, NoResumeError)
    ensures |st.resumeFiles| > 0 && uploadOk ==> r.0.resumeFiles == [] && r.1 == ResumesUploaded(|st.resumeFiles|)
    ensures |st.resumeFiles| > 0 && !uploadOk ==> r == (st, ResumesFailed)
  {
    if |st.resumeFiles| == 0 then (st, NoResumeError)
    else if uploadOk then (st.(resumeFiles := []), ResumesUploaded(|st.resumeFiles|))
    else (st, ResumesFailed)
  }

  /** Whatever happens, a resume submit never leaves a non-PDF file in the list, and
      neither does choosing files or removing one. */
  lemma OnlyPdfsAreListed(st: UploadState, files: seq<File>, index: int, uploadOk: bool)
    requires forall f :: f in st.resumeFiles ==> IsPdf(f)
    ensures forall f :: f in ChooseResumes(st, files).0.resumeFiles ==> IsPdf(f)
    ensures forall f :: f in RemoveResumeFile(st, index).resumeFiles ==> IsPdf(f)
    ensures forall f :: f in SubmitResumes(st, uploadOk).0.resumeFiles ==> IsPdf(f)
  {
    if 0 <= index < |st.resumeFiles| {
      var r := RemoveResumeFile(st, index).resumeFiles;
      forall f | f in r ensures IsPdf(f) {
        var k :| 0 <= k < |r| && r[k] == f;
        if k < index {
          assert r[k] == st.resumeFiles[..index][k];
        } else {
          assert r[k] == r[index..][k - index] == st.resumeFiles[index + 1..][k - index];
        }
      }
    }
  }
}
