/** The feed page: the compose form's state (text, attached file and its
    kind, whether the post button is enabled), the form data a submission
    sends, and the feed of rendered posts below the create-post card, top
    first. The DOM is reduced to these values; the network to parameters. */
module Client {
  import opened Wrappers
  import Seqs
  import JsText
  import Server

  /** A file picked in one of the three file inputs. */
  datatype File = File(name: string, mimeType: string, size: nat)

  /** The submit gate: some visible text, or an attachment. */
  predicate CanPost(text: string, media: Option<File>)
  {
    |JsText.Trim(text)| > 0 || media.Some?
  }

  /** The gate opens exactly when the text has a non-blank character or a
      file is attached. */
  lemma CanPostIff(text: string, media: Option<File>)
    ensures CanPost(text, media) <==>
      (exists i :: 0 <= i < |text| && !JsText.IsJsWhitespace(text[i])) || media.Some?
  {
  }

  // ---------------------------------------------------------------------
  // The multipart form a submission sends

  datatype FormValue = TextValue(text: string) | FileValue(file: File)

  datatype FormField = FormField(name: string, value: FormValue)

  /** `createPost`'s FormData: the `text` field always, then the `media`
      field when a file is attached. */
  function SubmissionForm(text: string, media: Option<File>): (form: seq<FormField>)
    ensures |form| == (if media.Some? then 2 else 1)
    ensures form[0] == FormField("text", TextValue(text))
    ensures media.Some? ==> form[1] == FormField("media", FileValue(media.value))
  {
    [FormField("text", TextValue(text))] +
    (if media.Some? then [FormField("media", FileValue(media.value))] else [])
  }

  /** The value of the first field called `name`, if any. */
  function FieldNamed(form: seq<FormField>, name: string): Option<FormValue>
  {
    if form == [] then None
    else if form[0].name == name then Some(form[0].value)
    else FieldNamed(form[1..], name)
  }

  /** The form carries the text as typed, and a `media` field exactly when a
      file is attached, holding that file. */
  lemma SubmissionFormFields(text: string, media: Option<File>)
    ensures FieldNamed(SubmissionForm(text, media), "text") == Some(TextValue(text))
    ensures FieldNamed(SubmissionForm(text, media), "media").Some? <==> media.Some?
    ensures media.Some? ==> FieldNamed(SubmissionForm(text, media), "media") == Some(FileValue(media.value))
  {
    var form := SubmissionForm(text, media);
    if media.Some? {
      assert form[1..] == [FormField("media", FileValue(media.value))];
    } else {
      assert form[1..] == [];
    }
  }

  /** The `text` of the request body, as the server reads it. */
  function ReceivedText(form: seq<FormField>): Option<string>
  {
    match FieldNamed(form, "text")
    case Some(TextValue(t)) => Some(t)
    case _ => None
  }

  /** The uploaded `media` file, stored at `uploadTime`, as the server reads it. */
  function ReceivedUpload(form: seq<FormField>, uploadTime: nat): Option<Server.UploadedFile>
  {
    match FieldNamed(form, "media")
    case Some(FileValue(f)) => Some(Server.StoreUpload(uploadTime, f.name, f.mimeType))
    case _ => None
  }

  /** A submission the gate lets through becomes a post with content: the
      invariant "text or media" holds of every post sent from this page. */
  lemma GatedSubmissionHasContent(text: string, media: Option<File>, id: nat, uploadTime: nat, isoNow: string)
    requires CanPost(text, media)
    ensures var form := SubmissionForm(text, media);
      Server.HasContent(Server.NewPost(id, ReceivedText(form), ReceivedUpload(form, uploadTime), isoNow))
  {
    SubmissionFormFields(text, media);
    var form := SubmissionForm(text, media);
    assert ReceivedText(form) == Some(text);
    var p := Server.NewPost(id, Some(text), ReceivedUpload(form, uploadTime), isoNow);
    assert p.text == text;
    assert p.media.Some? <==> media.Some?;
  }

  // ---------------------------------------------------------------------
  // The page

  class FeedPage {
    var text: string
    var currentMedia: Option<File>
    var currentMediaType: Option<Server.MediaType>
    var postEnabled: bool
    var feed: seq<Server.Post>

    /** A file and its kind are attached together or not at all; every
        method keeps this. */
    ghost predicate Valid()
      reads this
    {
      currentMedia.Some? == currentMediaType.Some?
    }

    /** The post button shows the gate's verdict on the current form. */
    ghost predicate ButtonAgrees()
      reads this
    {
      postEnabled == CanPost(text, currentMedia)
    }

    constructor()
      ensures Valid() && ButtonAgrees() && !postEnabled
      ensures text == "" && currentMedia == None && currentMediaType == None && feed == []
    {
      text, currentMedia, currentMediaType := "", None, None;
      postEnabled := false;
      feed := [];
    }

    /** `validatePost`; its frame leaves the media fields, and so `Valid()`, alone. */
    method ValidatePost()
      modifies this`postEnabled
      ensures postEnabled == CanPost(text, currentMedia)
    {
      postEnabled := |JsText.Trim(text)| > 0 || currentMedia.Some?;
    }

    /** Typing in the text box (the `input` listener). */
    method EditText(newText: string)
      requires Valid()
      ensures Valid()
      modifies this`text, this`postEnabled
      ensures text == newText && ButtonAgrees()
    {
      text := newText;
      ValidatePost();
    }

    /** `handleFileSelect(input, type)`: an empty selection changes nothing;
        otherwise the first file is attached with the input's kind. */
    method HandleFileSelect(files: seq<File>, kind: Server.MediaType)
      requires Valid()
      ensures Valid()
      modifies this`currentMedia, this`currentMediaType, this`postEnabled
      ensures |files| == 0 ==>
        currentMedia == old(currentMedia) && currentMediaType == old(currentMediaType) &&
        postEnabled == old(postEnabled)
      ensures |files| > 0 ==>
        currentMedia == Some(files[0]) && currentMediaType == Some(kind) && postEnabled
      ensures old(ButtonAgrees()) ==> ButtonAgrees()
    {
      if |files| == 0 {
        return;
      }
      currentMedia := Some(files[0]);
      currentMediaType := Some(kind);
      ValidatePost();
    }

    /** `removeMedia`: nothing attached; the button now follows the text alone. */
    method RemoveMedia()
      modifies this`currentMedia, this`currentMediaType, this`postEnabled
      ensures currentMedia == None && currentMediaType == None && Valid()
      ensures postEnabled == (|JsText.Trim(text)| > 0) && ButtonAgrees()
    {
      currentMedia := None;
      currentMediaType := None;
      ValidatePost();
    }

    /** `resetForm`: empty text, nothing attached, button disabled. */
    method ResetForm()
      modifies this`text, this`currentMedia, this`currentMediaType, this`postEnabled
      ensures text == "" && currentMedia == None && currentMediaType == None
      ensures !postEnabled && Valid() && ButtonAgrees()
    {
      text := "";
      RemoveMedia();
      ValidatePost();
    }

    /** The form data `createPost` sends for the current compose state. */
    method CreatePostForm() returns (form: seq<FormField>)
      ensures form == SubmissionForm(text, currentMedia)
      ensures FieldNamed(form, "text") == Some(TextValue(text))
      ensures FieldNamed(form, "media").Some? <==> currentMedia.Some?
    {
      form := SubmissionForm(text, currentMedia);
      SubmissionFormFields(text, currentMedia);
    }

    /** `renderPost`: the card goes right after the create-post card, i.e.
        at the front of the feed. */
    method RenderPost(p: Server.Post)
      requires Valid()
      ensures Valid()
      modifies this`feed
      ensures feed == [p] + old(feed)
    {
      feed := [p] + feed;
    }

    /** What `createPost` does with the answer: a created post is rendered
        and the form reset; a failure leaves the form intact for a retry. */
    method CompletePost(created: Option<Server.Post>)
      requires Valid()
      ensures Valid()
      modifies this
      ensures created.Some? ==>
        feed == [created.value] + old(feed) &&
        text == "" && currentMedia == None && currentMediaType == None && !postEnabled && ButtonAgrees()
      ensures created.None? ==>
        feed == old(feed) && text == old(text) && currentMedia == old(currentMedia) &&
        currentMediaType == old(currentMediaType) && postEnabled == old(postEnabled)
    {
      if created.Some? {
        RenderPost(created.value);
        ResetForm();
      }
    }

    /** `loadPosts`: render the server's list reversed, each at the front.
        The feed then shows the server's order, newest first, above what
        was there before. */
    method LoadPosts(posts: seq<Server.Post>)
      requires Valid()
      ensures Valid()
      modifies this`feed
      ensures feed == Seqs.PrependEach(Seqs.Reversed(posts), old(feed))
      ensures feed == posts + old(feed)
    {
      var reversed := Seqs.Reversed(posts);
      var i := 0;
      while i < |reversed|
        invariant 0 <= i <= |reversed|
        invariant feed == Seqs.Reversed(reversed[..i]) + old(feed)
      {
        assert reversed[..i + 1][..i] == reversed[..i];
        RenderPost(reversed[i]);
        i := i + 1;
      }
      assert reversed[..i] == reversed;
      Seqs.ReversedTwice(posts);
      Seqs.PrependEachReverses(reversed, old(feed));
    }
  }

  /** Iterating the server's list without reversing it first would show the
      feed oldest first. */
  lemma RenderingUnreversedListInvertsIt(posts: seq<Server.Post>)
    ensures Seqs.PrependEach(posts, []) == Seqs.Reversed(posts)
  {
    Seqs.PrependEachReverses(posts, []);
  }

  /** The feed after a page load equals a GET's answer: newest first. */
  lemma LoadedFeedIsServerOrder(posts: seq<Server.Post>)
    ensures Seqs.PrependEach(Seqs.Reversed(posts), []) == posts
  {
    Seqs.PrependEachOfReversed(posts, []);
  }
}
