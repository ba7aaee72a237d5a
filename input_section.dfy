/** The topic input form (components/InputSection.tsx): a text box, one optional image
    (a data URL) and the drop-zone highlight, with the submit guard. */
module InputSection {
  import opened Wrappers
  import opened Types

  /** What `onAnalyze` receives. */
  datatype AnalyzeRequest = AnalyzeRequest(text: string, image: Option<string>)

  /** `!text && !image`: neither text nor a (non-empty) image. */
  predicate Blank(text: string, image: Option<string>)
  {
    text == "" && !Truthy(image)
  }

  /** The submit button is disabled for a blank form and while an analysis is running. */
  predicate SubmitDisabled(text: string, image: Option<string>, isProcessing: bool)
  {
    Blank(text, image) || isProcessing
  }

  /** Either input alone is enough to enable the button when nothing is running. */
  lemma EitherInputEnablesSubmit(text: string, image: Option<string>)
    requires text != "" || Truthy(image)
    ensures !SubmitDisabled(text, image, false)
    ensures SubmitDisabled(text, image, true)
  {
  }

  class InputPanel {
    var text: string
    var image: Option<string>
    var dragActive: bool

    constructor()
      ensures text == "" && image.None? && !dragActive
    {
      text := "";
      image := None;
      dragActive := false;
    }

    /** The textarea's `onChange`. */
    method SetText(value: string)
      modifies this
      ensures text == value && image == old(image) && dragActive == old(dragActive)
    {
      text := value;
    }

    /** `handleDrag`: "dragenter" and "dragover" raise the highlight, "dragleave" lowers
        it, and any other event type leaves it as it is. */
    method Drag(eventType: string)
      modifies this
      ensures eventType == "dragenter" || eventType == "dragover" ==> dragActive
      ensures eventType == "dragleave" ==> !dragActive
      ensures eventType != "dragenter" && eventType != "dragover" && eventType != "dragleave" ==>
        dragActive == old(dragActive)
      ensures text == old(text) && image == old(image)
    {
      if eventType == "dragenter" || eventType == "dragover" {
        dragActive := true;
      } else if eventType == "dragleave" {
        dragActive := false;
      }
    }

    /** `handleDrop`: the highlight is always lowered; reading a dropped file finishes
        later, in `FileLoaded`. */
    method Drop()
      modifies this
      ensures !dragActive && text == old(text) && image == old(image)
    {
      dragActive := false;
    }

    /** The `FileReader` `onload` callback: a truthy result becomes the image; anything
        else is ignored. */
    method FileLoaded(result: Option<string>)
      modifies this
      ensures Truthy(result) ==> image == result
      ensures !Truthy(result) ==> image == old(image)
      ensures text == old(text) && dragActive == old(dragActive)
    {
      if result.Some? && result.value != "" {
        image := result;
      }
    }

    /** The remove button on the preview. */
    method RemoveImage()
      modifies this
      ensures image.None? && text == old(text) && dragActive == old(dragActive)
    {
      image := None;
    }

    /** `handleSubmit`: a blank form does nothing; otherwise `onAnalyze` gets exactly the
        text and the image held. The form itself is not cleared. */
    method Submit() returns (request: Option<AnalyzeRequest>)
      ensures request.None? <==> Blank(text, image)
      ensures request.Some? ==> request.value == AnalyzeRequest(text, image)
    {
      if text == "" && !(image.Some? && image.value != "") {
        return None;
      }
      return Some(AnalyzeRequest(text, image));
    }
  }
}
