/** The per-turn image pipeline of Dialogs/RootDialog.cs: pick the first image
    attachment, acknowledge, download, describe, analyse, reply, and wait for
    the next message. The vision service and the HTTP GET are inputs: each is
    the value the remote call returned or the exception it threw. */
module Dialogs {
  import opened Outcomes
  import opened Text
  import opened Download

  const LineSeparator := "\n\n\U{200C}"
  const ImageMarker := "image"

  const DownloadingText := "Downloading image..."
  const ProcessingText := "Image received, processing started..."
  const NoIdeaText := "Sorry, but I've no idea what it is :("
  const CaptionHeader := "#### My best guesses are:  \n"
  const FacesHeader := "#### people on photo:\n "
  const PromptText := "Please send me an image and I'll describe it :)"
  /** Every error reply is this prefix followed by the exception's rendering. */
  const ErrorPrefix := "Error occured: "

  // ---------------------------------------------------------------------------
  // Attachment selection
  // ---------------------------------------------------------------------------

  /** An attachment of the incoming activity; a null content type is `None`.
      A null entry in the attachment list throws at the same point of the scan
      as a null content type, so it is represented as one. */
  datatype Attachment = Attachment(contentType: Option<string>, contentUrl: string)

  /** What `Attachments?.FirstOrDefault(a => a.ContentType.Contains("image"))`
      does: picks the attachment at `index`, finds none, or throws because the
      attachment at `index` has a null content type. */
  datatype Selection =
    | Selected(index: nat, attachment: Attachment)
    | NoImage
    | NullContentType(index: nat)

  predicate IsImage(a: Attachment)
    requires a.contentType.Some?
  {
    Contains(a.contentType.value, ImageMarker)
  }

  /** The first `n` attachments were examined and none of them is an image. */
  ghost predicate PassedOver(atts: seq<Attachment>, n: nat)
  {
    n <= |atts| && forall j :: 0 <= j < n ==> atts[j].contentType.Some? && !IsImage(atts[j])
  }

  /** The scan of `FirstOrDefault`, from position `k` on, in list order. */
  function FirstImageFrom(atts: seq<Attachment>, k: nat): (r: Selection)
    requires PassedOver(atts, k)
    ensures r.Selected? ==>
              && k <= r.index < |atts| && r.attachment == atts[r.index]
              && atts[r.index].contentType.Some? && IsImage(atts[r.index])
              && PassedOver(atts, r.index)
    ensures r.NoImage? <==> PassedOver(atts, |atts|)
    ensures r.NullContentType? ==>
              k <= r.index < |atts| && atts[r.index].contentType.None? && PassedOver(atts, r.index)
    decreases |atts| - k
  {
    if k == |atts| then NoImage
    else match atts[k].contentType
      case None => NullContentType(k)
      case Some(_) =>
        if IsImage(atts[k]) then Selected(k, atts[k]) else FirstImageFrom(atts, k + 1)
  }

  /** The attachment selection of line 31; a null attachment list selects
      nothing, like an empty one. */
  function SelectImage(attachments: Option<seq<Attachment>>): Selection
  {
    match attachments
    case None => NoImage
    case Some(atts) => FirstImageFrom(atts, 0)
  }

  /** The selected attachment is the first, in list order, whose content type
      contains "image"; with none, every content type was examined and lacks it. */
  lemma SelectionIsFirstMatch(atts: seq<Attachment>)
    ensures SelectImage(Some(atts)).Selected? ==>
              var i := SelectImage(Some(atts)).index;
              && i < |atts| && atts[i].contentType.Some? && IsImage(atts[i])
              && forall j :: 0 <= j < i ==> atts[j].contentType.Some? && !IsImage(atts[j])
    ensures SelectImage(Some(atts)).NoImage? <==>
              forall j :: 0 <= j < |atts| ==> atts[j].contentType.Some? && !IsImage(atts[j])
    ensures SelectImage(None) == SelectImage(Some([])) == NoImage
  {
  }

  // ---------------------------------------------------------------------------
  // Reply formatting
  // ---------------------------------------------------------------------------

  /** One caption of the describe result. `confidence` is the confidence as
      `{c.Confidence:P2}` renders it, which the model takes as given. */
  datatype Caption = Caption(text: string, confidence: string)

  /** One detected face: `{Gender}` (a null gender renders as ""), `{Age}` and
      the left and top of its rectangle. */
  datatype Face = Face(gender: string, age: int, left: int, top: int)

  function FormatCaption(c: Caption): string
  {
    c.text + " (" + c.confidence + ")"
  }

  function FormatFace(f: Face): string
  {
    f.gender + ", " + IntToString(f.age) + " at (" + IntToString(f.left) + ", " + IntToString(f.top) + ")"
  }

  function FormattedCaptions(cs: seq<Caption>): seq<string>
  {
    seq(|cs|, i requires 0 <= i < |cs| => FormatCaption(cs[i]))
  }

  function FormattedFaces(fs: seq<Face>): seq<string>
  {
    seq(|fs|, i requires 0 <= i < |fs| => FormatFace(fs[i]))
  }

  /** The text posted after describing (lines 44-49). */
  function CaptionReply(cs: seq<Caption>): string
  {
    var description := Join(LineSeparator, FormattedCaptions(cs));
    if description == "" then NoIdeaText else CaptionHeader + description
  }

  /** The text posted for the detected faces (lines 56-59). */
  function FacesReply(fs: seq<Face>): string
  {
    FacesHeader + Join(LineSeparator, FormattedFaces(fs))
  }

  /** `resultAnalyse.Faces?.Any() ?? false` */
  predicate HasFaces(faces: Option<seq<Face>>)
  {
    faces.Some? && |faces.value| > 0
  }

  /** "No idea" exactly for an empty caption list (a formatted caption is never
      empty); otherwise the header and then the captions. */
  lemma CaptionReplyCases(cs: seq<Caption>)
    ensures CaptionReply(cs) == NoIdeaText <==> |cs| == 0
    ensures |cs| > 0 ==>
              CaptionReply(cs) == CaptionHeader + Join(LineSeparator, FormattedCaptions(cs))
  {
    var parts := FormattedCaptions(cs);
    JoinEmpty(LineSeparator, parts);
    if |cs| == 1 {
      assert |parts[0]| > 0;
    }
    if |cs| > 0 {
      var d := Join(LineSeparator, parts);
      assert (CaptionHeader + d)[5] == 'M' != NoIdeaText[5];
    }
  }

  /** Caption `i` follows the header at its place in the join, in service
      order, with one separator between neighbours. */
  lemma CaptionInOrder(cs: seq<Caption>, i: nat)
    requires i < |cs|
    ensures var at := |CaptionHeader| + Offset(LineSeparator, FormattedCaptions(cs), i);
            var text := FormatCaption(cs[i]);
            && at + |text| <= |CaptionReply(cs)|
            && CaptionReply(cs)[at..at + |text|] == text
            && (i + 1 < |cs| ==>
                  at + |text| + |LineSeparator| <= |CaptionReply(cs)| &&
                  CaptionReply(cs)[at + |text|..at + |text| + |LineSeparator|] == LineSeparator)
  {
    var parts := FormattedCaptions(cs);
    assert |parts| == |cs| && parts[i] == FormatCaption(cs[i]);
    var joined := Join(LineSeparator, parts);
    JoinLayout(LineSeparator, parts, i);
    assert |joined| >= |parts[i]| > 0;
    assert CaptionReply(cs) == CaptionHeader + joined;
    JoinLayoutAfter(CaptionHeader, LineSeparator, parts, i);
  }

  /** Face `i` follows the faces header at its place in the join, in order,
      with one separator between neighbours. */
  lemma FaceInOrder(fs: seq<Face>, i: nat)
    requires i < |fs|
    ensures var at := |FacesHeader| + Offset(LineSeparator, FormattedFaces(fs), i);
            var text := FormatFace(fs[i]);
            && at + |text| <= |FacesReply(fs)|
            && FacesReply(fs)[at..at + |text|] == text
            && (i + 1 < |fs| ==>
                  at + |text| + |LineSeparator| <= |FacesReply(fs)| &&
                  FacesReply(fs)[at + |text|..at + |text| + |LineSeparator|] == LineSeparator)
  {
    var parts := FormattedFaces(fs);
    assert |parts| == |fs| && parts[i] == FormatFace(fs[i]);
    JoinLayoutAfter(FacesHeader, LineSeparator, parts, i);
  }

  /** A reply that starts with the faces header. */
  predicate IsFacesReply(r: Reply)
  {
    r.Say? && |FacesHeader| <= |r.text| && r.text[..|FacesHeader|] == FacesHeader
  }

  /** A text that differs from the faces header somewhere within it is no
      faces reply. */
  lemma DiffersFromFacesHeader(text: string, k: nat)
    requires k < |FacesHeader| && k < |text| && text[k] != FacesHeader[k]
    ensures !IsFacesReply(Say(text))
  {
    if |FacesHeader| <= |text| {
      assert text[..|FacesHeader|][k] == text[k];
    }
  }

  /** Only the faces reply starts with the faces header. */
  lemma FacesHeaderIsDistinct(cs: seq<Caption>, fs: seq<Face>)
    ensures IsFacesReply(Say(FacesReply(fs)))
    ensures !IsFacesReply(Say(CaptionReply(cs)))
    ensures !IsFacesReply(Say(DownloadingText)) && !IsFacesReply(Say(ProcessingText))
  {
    var joined := Join(LineSeparator, FormattedFaces(fs));
    assert (FacesHeader + joined)[..|FacesHeader|] == FacesHeader;
    CaptionReplyCases(cs);
    if |cs| > 0 {
      var d := Join(LineSeparator, FormattedCaptions(cs));
      assert (CaptionHeader + d)[5] == 'M';
      DiffersFromFacesHeader(CaptionReply(cs), 5);
    } else {
      DiffersFromFacesHeader(NoIdeaText, 0);
    }
    DiffersFromFacesHeader(DownloadingText, 0);
    DiffersFromFacesHeader(ProcessingText, 0);
  }

  /** Two captions, rendered in service order after the header. */
  lemma TwoCaptionsExample()
    ensures CaptionReply([Caption("cat", "97.00%"), Caption("animal", "81.00%")])
            == CaptionHeader + "cat (97.00%)" + LineSeparator + "animal (81.00%)"
  {
    var parts := FormattedCaptions([Caption("cat", "97.00%"), Caption("animal", "81.00%")]);
    assert FormatCaption(Caption("cat", "97.00%")) == "cat (97.00%)";
    assert FormatCaption(Caption("animal", "81.00%")) == "animal (81.00%)";
    assert parts == ["cat (97.00%)", "animal (81.00%)"];
    assert Join(LineSeparator, parts) == "cat (97.00%)" + LineSeparator + "animal (81.00%)";
    assert Join(LineSeparator, parts) != "";
  }

  /** One face, with gender, age and the top-left corner of its rectangle. */
  lemma OneFaceExample()
    ensures FacesReply([Face("Male", 34, 10, 20)]) == FacesHeader + "Male, 34 at (10, 20)"
  {
  }

  // ---------------------------------------------------------------------------
  // Remote outcomes, replies and the turn
  // ---------------------------------------------------------------------------

  /** What `DescribeAsync` gave: a caption list, a null somewhere along
      `resultDescribe?.Description?.Captions`, or an exception. */
  datatype Description =
    | Described(captions: seq<Caption>)
    | NoCaptionList
    | DescribeFailed(exception: string)

  /** What `AnalyzeImageAsync` gave: a result whose face list may be null, a
      null result, or an exception. */
  datatype Analysis =
    | Analysed(faces: Option<seq<Face>>)
    | NoAnalysis
    | AnalyseFailed(exception: string)

  /** The exception that ended a turn inside the try block: one a remote call
      threw, `String.Join`'s ArgumentNullException for a null caption list, or
      the NullReferenceException of reading `Faces` on a null result. */
  datatype Fault = Thrown(exception: string) | NullCaptionList | NullAnalysisResult

  /** A message posted to the conversation: text, or the error reply, which is
      `ErrorPrefix` followed by the rendering of the fault. */
  datatype Reply = Say(text: string) | ErrorReport(fault: Fault)

  /** A remote step the turn started: the download of `url` (token request and
      GET), the describe call, the analyse call. */
  datatype Call = Fetch(url: string) | Describe | Analyse

  /** Everything one `MessageReceivedAsync` did: the replies posted, in order,
      the remote calls made, in order, and whether it ran to its end (it does
      not when an exception escapes before the try block). */
  datatype Turn = Turn(replies: seq<Reply>, calls: seq<Call>, completed: bool)

  /** The replies of a turn on which nothing failed. */
  function SuccessReplies(captions: seq<Caption>, faces: Option<seq<Face>>): seq<Reply>
  {
    [Say(DownloadingText), Say(ProcessingText), Say(CaptionReply(captions))]
      + (if HasFaces(faces) then [Say(FacesReply(faces.value))] else [])
  }

  /** What a try block did before it ended: the replies it posted, the calls
      it made, and the exception it threw, if any. */
  datatype Attempt = Attempt(shown: seq<Reply>, calls: seq<Call>, fault: Option<Fault>)

  /** Lines 42-60: describe, post the caption reply, analyse, post the faces
      reply; a failure stops the sequence where it happens. */
  function Processing(description: Description, analysis: Analysis): Attempt
  {
    match description
    case DescribeFailed(e) => Attempt([], [Describe], Some(Thrown(e)))
    case NoCaptionList => Attempt([], [Describe], Some(NullCaptionList))
    case Described(cs) =>
      var shown := [Say(CaptionReply(cs))];
      match analysis
      case AnalyseFailed(e) => Attempt(shown, [Describe, Analyse], Some(Thrown(e)))
      case NoAnalysis => Attempt(shown, [Describe, Analyse], Some(NullAnalysisResult))
      case Analysed(faces) =>
        Attempt(shown + (if HasFaces(faces) then [Say(FacesReply(faces.value))] else []), [Describe, Analyse], None)
  }

  /** Lines 36-60, the try block: acknowledge, download, acknowledge, then the
      processing steps. */
  function TryBlock(url: string, download: Remote<Bytes>, description: Description, analysis: Analysis): Attempt
  {
    match download
    case Failed(e) => Attempt([Say(DownloadingText)], [Fetch(url)], Some(Thrown(e)))
    case Ok(_) =>
      var p := Processing(description, analysis);
      Attempt([Say(DownloadingText), Say(ProcessingText)] + p.shown, [Fetch(url)] + p.calls, p.fault)
  }

  /** Lines 34-66: the try block, and the catch that posts one error reply for
      whatever it threw. */
  function ImageTurn(url: string, download: Remote<Bytes>, description: Description, analysis: Analysis): Turn
  {
    var a := TryBlock(url, download, description, analysis);
    Turn(a.shown + (if a.fault.Some? then [ErrorReport(a.fault.value)] else []), a.calls, true)
  }

  /** One whole `MessageReceivedAsync` (lines 27-75). */
  function RunTurn(attachments: Option<seq<Attachment>>, channelId: string, creds: Credentials,
                   get: Remote<Bytes>, description: Description, analysis: Analysis): Turn
  {
    match SelectImage(attachments)
    case NullContentType(_) => Turn([], [], false)
    case NoImage => Turn([Say(PromptText)], [], true)
    case Selected(_, a) => ImageTurn(a.contentUrl, DownloadResult(channelId, creds, get), description, analysis)
  }

  // ---------------------------------------------------------------------------
  // Properties of a turn
  // ---------------------------------------------------------------------------

  /** Without an image attachment: the prompt, and no remote call at all. */
  lemma NoImageTurn(attachments: Option<seq<Attachment>>, channelId: string, creds: Credentials,
                    get: Remote<Bytes>, description: Description, analysis: Analysis)
    requires SelectImage(attachments).NoImage?
    ensures RunTurn(attachments, channelId, creds, get, description, analysis)
            == Turn([Say(PromptText)], [], true)
  {
  }

  /** A null content type met before any image throws outside the try block:
      nothing is posted, nothing is fetched, and the turn does not complete. */
  lemma NullContentTypeTurn(attachments: Option<seq<Attachment>>, channelId: string, creds: Credentials,
                            get: Remote<Bytes>, description: Description, analysis: Analysis)
    requires SelectImage(attachments).NullContentType?
    ensures RunTurn(attachments, channelId, creds, get, description, analysis) == Turn([], [], false)
  {
  }

  /** When nothing fails: the two acknowledgements, the caption reply, and the
      faces reply only when there are faces — three or four replies. */
  lemma SuccessTurn(url: string, bytes: Bytes, captions: seq<Caption>, faces: Option<seq<Face>>)
    ensures var t := ImageTurn(url, Ok(bytes), Described(captions), Analysed(faces));
            && t.calls == [Fetch(url), Describe, Analyse]
            && t.replies[..3] == [Say(DownloadingText), Say(ProcessingText), Say(CaptionReply(captions))]
            && (|t.replies| == 4 <==> HasFaces(faces))
            && (|t.replies| == 3 <==> !HasFaces(faces))
            && (HasFaces(faces) ==> t.replies[3] == Say(FacesReply(faces.value)))
  {
  }

  /** A failed download: the first acknowledgement stays and one error reply
      follows; nothing is described or analysed. */
  lemma DownloadFailureTurn(url: string, e: string, description: Description, analysis: Analysis)
    ensures ImageTurn(url, Failed(e), description, analysis)
            == Turn([Say(DownloadingText), ErrorReport(Thrown(e))], [Fetch(url)], true)
  {
  }

  /** A failed or null description: both acknowledgements stay, one error
      reply follows, and the image is not analysed. */
  lemma DescribeFailureTurn(url: string, bytes: Bytes, description: Description, analysis: Analysis)
    requires !description.Described?
    ensures var t := ImageTurn(url, Ok(bytes), description, analysis);
            && t.replies == [Say(DownloadingText), Say(ProcessingText), ErrorReport(
                 if description.NoCaptionList? then NullCaptionList else Thrown(description.exception))]
            && t.calls == [Fetch(url), Describe]
  {
  }

  /** A failed or null analysis: the caption reply stays, one error reply
      follows, and no faces reply. */
  lemma AnalyseFailureTurn(url: string, bytes: Bytes, captions: seq<Caption>, analysis: Analysis)
    requires !analysis.Analysed?
    ensures var t := ImageTurn(url, Ok(bytes), Described(captions), analysis);
            && t.replies == [Say(DownloadingText), Say(ProcessingText), Say(CaptionReply(captions)), ErrorReport(
                 if analysis.NoAnalysis? then NullAnalysisResult else Thrown(analysis.exception))]
  {
  }

  /** Whatever fails, the replies already posted are those of the successful
      turn, in order, and exactly one error reply ends the log; a turn with no
      failure posts no error reply at all. */
  lemma {:induction false} ErrorEndsTurn(url: string, download: Remote<Bytes>, description: Description, analysis: Analysis)
    ensures var t := ImageTurn(url, download, description, analysis);
            var succeeded := download.Ok? && description.Described? && analysis.Analysed?;
            && (succeeded ==> t.replies == SuccessReplies(description.captions, analysis.faces))
            && (!succeeded ==>
                  && 2 <= |t.replies| <= 4
                  && t.replies[|t.replies| - 1].ErrorReport?
                  && t.replies[..|t.replies| - 1]
                     == SuccessReplies(if description.Described? then description.captions else [], Some([]))[..|t.replies| - 1])
            && (forall i :: 0 <= i < |t.replies| && t.replies[i].ErrorReport? ==> !succeeded && i == |t.replies| - 1)
  {
  }

  /** A faces reply is posted exactly when the download, the description and
      the analysis all succeeded and the analysis found at least one face. */
  lemma FacesReplyIff(url: string, download: Remote<Bytes>, description: Description, analysis: Analysis)
    ensures var t := ImageTurn(url, download, description, analysis);
            (exists i :: 0 <= i < |t.replies| && IsFacesReply(t.replies[i]))
            <==> download.Ok? && description.Described? && analysis.Analysed? && HasFaces(analysis.faces)
  {
    var t := ImageTurn(url, download, description, analysis);
    var acks := [Say(DownloadingText), Say(ProcessingText)];
    FacesHeaderIsDistinct([], []);
    match download {
      case Failed(e) =>
        assert t.replies == [Say(DownloadingText), ErrorReport(Thrown(e))];
      case Ok(_) =>
        match description {
          case DescribeFailed(e) =>
            assert t.replies == acks + [ErrorReport(Thrown(e))];
          case NoCaptionList =>
            assert t.replies == acks + [ErrorReport(NullCaptionList)];
          case Described(cs) =>
            var shown := acks + [Say(CaptionReply(cs))];
            match analysis {
              case AnalyseFailed(e) =>
                FacesHeaderIsDistinct(cs, []);
                assert t.replies == shown + [ErrorReport(Thrown(e))];
              case NoAnalysis =>
                FacesHeaderIsDistinct(cs, []);
                assert t.replies == shown + [ErrorReport(NullAnalysisResult)];
              case Analysed(faces) =>
                if HasFaces(faces) {
                  FacesHeaderIsDistinct(cs, faces.value);
                  assert t.replies == shown + [Say(FacesReply(faces.value))];
                  assert IsFacesReply(t.replies[3]);
                } else {
                  FacesHeaderIsDistinct(cs, []);
                  assert t.replies == shown;
                }
            }
        }
    }
  }

  // ---------------------------------------------------------------------------
  // The dialog
  // ---------------------------------------------------------------------------

  /** The dialog object: what it has posted to the conversation, the remote
      calls it made, and whether `MessageReceivedAsync` is registered as the
      continuation for the next message. It keeps nothing else between turns. */
  class RootDialog {
    var posted: seq<Reply>
    var calls: seq<Call>
    var waiting: bool

    /** `new RootDialog()`: nothing posted, nothing registered yet. */
    constructor ()
      ensures posted == [] && calls == [] && !waiting
    {
      posted, calls, waiting := [], [], false;
    }

    /** `StartAsync`: wait for the first message. */
    method StartAsync()
      modifies this
      ensures waiting && posted == old(posted) && calls == old(calls)
    {
      waiting := true;
    }

    /** `context.PostAsync`: the reply is appended to the conversation. */
    method Post(r: Reply)
      modifies this
      ensures posted == old(posted) + [r] && calls == old(calls) && waiting == old(waiting)
    {
      posted := posted + [r];
    }

    /** Lines 42-60: the calls to the vision service and the replies built
        from their results; returns what was thrown, if anything. */
    method DescribeAndAnalyse(description: Description, analysis: Analysis) returns (fault: Option<Fault>)
      modifies this
      ensures var p := Processing(description, analysis);
              && posted == old(posted) + p.shown
              && calls == old(calls) + p.calls
              && fault == p.fault
              && waiting == old(waiting)
    {
      calls := calls + [Describe];
      match description {
        case DescribeFailed(e) =>
          return Some(Thrown(e));
        case NoCaptionList =>
          return Some(NullCaptionList);
        case Described(cs) =>
          Post(Say(CaptionReply(cs)));
          calls := calls + [Analyse];
          match analysis {
            case AnalyseFailed(e) =>
              return Some(Thrown(e));
            case NoAnalysis =>
              return Some(NullAnalysisResult);
            case Analysed(faces) =>
              if HasFaces(faces) {
                Post(Say(FacesReply(faces.value)));
              }
              return None;
          }
      }
    }

    /** Lines 36-60, the try block; returns what was thrown, if anything. */
    method TryImage(url: string, channelId: string, creds: Credentials, get: Remote<Bytes>,
                    description: Description, analysis: Analysis)
      returns (fault: Option<Fault>)
      modifies this
      ensures var a := TryBlock(url, DownloadResult(channelId, creds, get), description, analysis);
              && posted == old(posted) + a.shown
              && calls == old(calls) + a.calls
              && fault == a.fault
              && waiting == old(waiting)
    {
      Post(Say(DownloadingText));
      calls := calls + [Fetch(url)];
      var bytes, _ := DownloadImage(channelId, creds, get);
      if bytes.Failed? {
        return Some(Thrown(bytes.exception));
      }
      Post(Say(ProcessingText));
      fault := DescribeAndAnalyse(description, analysis);
    }

    /** `MessageReceivedAsync`: the resumed continuation is used up; with an
        image, the try block runs and its catch posts one error reply for
        whatever it threw; without one, the prompt; at the end (line 74) the
        dialog waits again. An exception from the selection escapes first. */
    method MessageReceived(attachments: Option<seq<Attachment>>, channelId: string, creds: Credentials,
                           get: Remote<Bytes>, description: Description, analysis: Analysis)
      returns (completed: bool)
      modifies this
      ensures var t := RunTurn(attachments, channelId, creds, get, description, analysis);
              && posted == old(posted) + t.replies
              && calls == old(calls) + t.calls
              && completed == t.completed
              && waiting == completed
    {
      waiting := false;
      var selection := SelectImage(attachments);
      if selection.NullContentType? {
        return false;
      }
      if selection.Selected? {
        var fault := TryImage(selection.attachment.contentUrl, channelId, creds, get, description, analysis);
        if fault.Some? {
          Post(ErrorReport(fault.value));
        }
      } else {
        Post(Say(PromptText));
      }
      waiting := true;
      completed := true;
    }
  }
}
