# FluxAman feed: a Dafny model of post ingestion, storage and feed order

FluxAman is a one-operator feed page. The server (`server.js`) accepts a
multipart submission with an optional text and at most one media file. It
classifies the file by MIME type and names it `<timestamp>-<original name>`
under `uploads/`. It builds a post record, puts it at the front of the
collection held in `posts.json`, and serves the collection newest first. The
page (`script.js`) keeps a small compose state: the text, the attached file
and its kind, and whether the post button is enabled. It sends the form and
renders posts below the create-post card.

The model has five modules:

- `Wrappers` (`wrappers.dfy`) holds `Option`, for the source's `null`, and `Result`, for a thrown error with its message.
- `Seqs` (`seqs.dfy`) holds `Reversed` and `PrependEach`. `PrependEach` inserts each item in turn at the front. It stands for a run of `unshift` calls on the server and a run of `renderPost` calls on the page.
- `JsText` (`jstext.dfy`) holds the JavaScript string operations the core relies on: `startsWith`, `trim` with the white space ECMA-262 defines, the decimal rendering of a whole Number, and `replace(/\n/g, '<br>')`.
- `Server` (`server.dfy`) holds `getMediaType`, the storage-name rule, post construction and the `PostRepository` class. The class has one field: the data file, which is missing, stored or unparseable. `ReadAll` is `readPosts`, `WriteAll` is `writePosts`, and `AppendFront` is the read, `unshift` and write of the POST handler. The module also holds the GET and POST handlers as methods over a repository.
- `Client` (`client.dfy`) holds the `FeedPage` class. Its fields are the compose state and the feed, a `seq` of posts, top first. It has one method per handler and a `while` loop for `loadPosts`. The module also holds the submission form and the submit gate.

The clock is a parameter. The upload instant used in the file name
(server.js:28), the post id (server.js:66) and the ISO timestamp
(server.js:71) come from separate clock reads in the source. So they are
separate parameters here, and nothing is claimed about id uniqueness.

Two behaviours of the code the model keeps:

- The rule that a post has text or media is enforced only by the page's button. The server builds an empty post when asked, and `Server.ServerAcceptsEmptySubmission` states this.
- The code can fail in one way the model keeps: an unparseable `posts.json`. In `GET` this exception is outside any `try`, so the framework answers with its default 500 page. In `POST` the handler answers 500 with `Internal Server Error: ` and the parser's message, and does not rewrite `posts.json`; an uploaded file stays on disk unreferenced.

## Model

| member | source | states |
|---|---|---|
| `Server.GetMediaType` | server.js:86-90 | the result is `image` exactly for types starting `image/`; `video` exactly for types starting `video/` but not `image/`; `document` exactly for all other types |
| `Server.MediaTypeOfFamily` | server.js:87-88 | every `image/<anything>` is an image and every `video/<anything>` a video |
| `Server.MediaTypeReadsSixCharacters` | server.js:86-90 | a type shorter than six characters is a document; characters after the sixth never change the class |
| `Server.StoredFilename` | server.js:28 | the stored name starts with the decimal upload instant and `-`, ends with the original name unchanged, and has nothing else in between |
| `JsText.NatToDecimal` | server.js:28 | the rendering of the instant is a non-empty string of decimal digits with no leading zero |
| `JsText.DecimalRoundTrip` | server.js:28 | reading the decimal digits back gives the instant |
| `Server.StoredFilenameRoundTrip` | server.js:28 | splitting a stored name at its first `-` recovers the instant and the original name, even when the name contains `-` |
| `Server.StoredFilenameInjective` | server.js:28 | two uploads share a stored name only if both the instant and the original name are equal |
| `Server.StoreUpload` | server.js:27-28 | the upload record keeps the original name and MIME type, and its file name is the storage name of that instant and name, which reads back to both |
| `Server.MediaPath` | server.js:68 | the media path is `uploads/` followed by the stored file name |
| `Server.SubmittedText` | server.js:67 | a given text is kept; an absent one becomes `''` |
| `Server.NewPost` | server.js:65-72 | the media fields are all null or all set; they are set exactly when a file came; with a file they hold its `uploads/` path, its class and its original name; id, text and timestamp are the inputs |
| `Server.NewPostNamesStoredFile` | server.js:68-70 | the `media` path of a post made from an upload reads back to that upload's instant and original name, and `originalName` is that name |
| `Server.ServerAcceptsEmptySubmission` | server.js:60-72 | a submission with no text, or any all-blank text, and no file still yields a post, one with no content |
| `Server.Unshift` | server.js:75 | the new post is at index 0, the length grows by one, and every older post keeps its contents one index later |
| `Server.SequentialAppendsNewestFirst` | server.js:74-76 | appending a run of posts in order leaves them newest first, ahead of the older collection |
| `Server.AppendsABC` | server.js:74-76 | appending A, then B, then C to an empty collection gives `[C, B, A]` |
| `Server.PostRepository.constructor` | server.js:35 | the repository starts on the given data file |
| `Server.PostRepository.ReadAll` | server.js:38-44 | no data file reads as the empty collection; a stored collection reads as itself; an unparseable file is an error |
| `Server.PostRepository.WriteAll` | server.js:47-49 | the stored collection is replaced wholesale by the argument |
| `Server.PostRepository.AppendFront` | server.js:74-76 | it succeeds exactly when the read succeeds; then the stored collection is the old one with the post unshifted; after a failed read, the file stays untouched |
| `Server.HandleGet` | server.js:54-57 | status 200 with exactly the stored collection; on a read failure, status 500 |
| `Server.HandlePost` | server.js:60-83 | status 201 echoing the built post, which is now first in the collection; after a read failure, status 500 with the error text and the file unchanged |
| `Server.TwoReads` | server.js:54-57 | two GETs with nothing in between give identical answers |
| `Server.PostThenGet` | server.js:74-78 | after a 201, the next GET lists the created post first, field for field |
| `Server.ThreePostsFromEmpty` | server.js:60-83 | three POST handler runs A, B, C on a server with no data file, then a GET, list the three built posts as C, B, A |
| `JsText.Trim` | script.js:107 | the trimmed text is empty exactly when the text is all white space, and otherwise neither starts nor ends with white space |
| `JsText.TrimIsSlice` | script.js:107 | the trimmed text is the slice of the text between a blank prefix and a blank suffix |
| `Client.CanPostIff` | script.js:107 | the gate is open exactly when the text has a non-blank character or a file is attached |
| `Client.FeedPage.constructor` | script.js:11-12 | the page starts with no text, no media, no media type, an empty feed and the button disabled, as the gate says |
| `Client.FeedPage.ValidatePost` | script.js:106-114 | the button is enabled exactly when the trimmed text is non-empty or a file is attached |
| `Client.FeedPage.EditText` | script.js:104 | typing stores the text and brings the button in line with the gate |
| `Client.FeedPage.HandleFileSelect` | script.js:43-52 | an empty selection changes nothing; otherwise the first file and the given kind are attached and the button is enabled |
| `Client.FeedPage.RemoveMedia` | script.js:88-100 | no file and no kind remain; the button is enabled exactly when the trimmed text is non-empty |
| `Client.FeedPage.ResetForm` | script.js:247-251 | the text is empty, nothing is attached and the button is disabled |
| `Client.SubmissionForm` | script.js:121-125 | the form has the `text` field first, and a second field `media` holding the file exactly when one is attached |
| `Client.SubmissionFormFields` | script.js:122-125 | the `text` field always carries the typed text; a `media` field exists exactly when a file is attached and holds that file |
| `Client.FeedPage.CreatePostForm` | script.js:118-125 | the form sent is the one for the current text and attachment |
| `Client.GatedSubmissionHasContent` | script.js:107-125 | every submission the gate lets through becomes, at the server, a post with visible text or media |
| `Client.FeedPage.RenderPost` | script.js:192-193 | the new card goes at the front of the feed, right after the create-post card |
| `Client.FeedPage.CompletePost` | script.js:133-145 | a created post is put first in the feed and the form is reset with the button disabled; after a failure, the feed and the form are unchanged |
| `Client.FeedPage.LoadPosts` | script.js:196-237 | after inserting the reversed server list one card at a time at the front, the feed shows the server's list in its own order, newest first, above the cards already there |
| `Seqs.PrependEachReverses` | script.js:225-229 | inserting items at the front one by one leaves them in reverse order ahead of what was there |
| `Client.RenderingUnreversedListInvertsIt` | script.js:225-229 | rendering the server list without reversing it would show the oldest post on top |
| `Seqs.PrependEachOfReversed` | script.js:231-237 | front-inserting a reversed list restores the list's order |
| `Client.LoadedFeedIsServerOrder` | script.js:231-237 | the feed after a page load equals the list a GET returns |
| `Seqs.Reversed` | script.js:237 | the reversal has the same length, with element `i` taken from position `n-1-i` |
| `JsText.ReplaceNewlines` | script.js:174 | the formatted text has no line feed; a text without line feeds is unchanged; each line feed adds three characters |
| `JsText.ReplaceNewlinesOfChar` | script.js:174 | a line feed becomes `<br>` and every other character is kept as it is |
| `JsText.ReplaceNewlinesConcat` | script.js:174 | the replacement distributes over concatenation; with the row above this fixes the result on every text |

## Left out

- The Express, multer, cors and static-file wiring, the upload directory's creation, and the server start-up are left out. They are framework plumbing with no logic of the feed's own.
- The submitted `text` is modelled as a string or absent. With the JSON body parser installed (server.js:12), a JSON request could set it to any JSON value, which `text || ''` keeps when truthy and turns into `''` when it is `0`, `false` or `null`; such requests are not modelled.
- `Client.ReceivedText` and `Client.ReceivedUpload` stand in for the upload middleware's parsing of the form into `req.body.text` and `req.file`. They take the first field of each name, and the file is stored with `Server.StoreUpload`. The browser's multipart encoding sends each bare line feed of the text as CR LF; that normalisation is not modelled, and the typed text reaches the server unchanged.
- The real file system is left out: the data file is one abstract value, and the JSON text encoding is not modelled.
- A failing `writeFileSync`, a failed media write and a crash in the middle of a write are not modelled. The abstract store never fails to write.
- Media files on disk are not modelled. The upload middleware stores the file before the handler runs (server.js:60), so a failed write, or an unparseable `posts.json`, leaves that file on disk with no post referring to it.
- The concurrent read-modify-write race between two POSTs is not modelled. Each handler runs whole, one at a time.
- The clock reads are parameters, and id uniqueness is not claimed.
- The DOM is left out: templates, previews, `URL.createObjectURL`, the modal and `window.onclick`, the button's opacity, and clearing the file inputs. Of `renderPost`, only the insertion of the card into the feed is modelled; its three media branches (image, video, document markup) and the card's HTML are dropped.
- `fetch` and its errors, `alert` and `console` are left out as network I/O. `CompletePost` takes the request's outcome as a parameter. `LoadPosts` takes the list the server returned.
- The file-size display in KB is left out, because it is floating-point formatting.
- `toggleAdmin` is left out. It is a client-side prompt with a fixed password, not an access boundary.
- `toLocaleString` time formatting is left out, because it depends on the locale.
- `JsText.NatToDecimal`: it renders every whole number in plain decimal. JavaScript switches to exponent notation from 10^21 on, which no millisecond clock reaches.
- A Dafny `char` stands for one character of a JavaScript string. UTF-16 surrogate pairs are not modelled separately.
- `Client.FeedPage.constructor`: the button's initial state is set in the page's HTML, which is not part of this model. The constructor starts it disabled, as the gate gives for an empty form.
- `Server.HandleGet`: the body of the framework's default error page is not modelled, only its status 500.
- `Server.PostRepository.ReadAll`: an unparseable file is an error carrying the parser's message. The message text itself is a parameter of the file state.
