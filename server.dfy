/** The feed server: classifying and naming an uploaded file, building a post
    record from a submission, the post repository over the data file, and the
    GET and POST handlers of `/api/posts`. The clock is a parameter. */
module Server {
  import opened Wrappers
  import Seqs
  import JsText

  // ---------------------------------------------------------------------
  // Media classification

  datatype MediaType = Image | Video | Document

  const ImagePrefix: string := "image/"
  const VideoPrefix: string := "video/"

  /** `getMediaType`: a three-way rule on the MIME type's prefix, `image/`
      winning over `video/`, anything else a document. */
  function GetMediaType(mimetype: string): (r: MediaType)
    ensures r == Image <==> JsText.StartsWith(mimetype, ImagePrefix)
    ensures r == Video <==> !JsText.StartsWith(mimetype, ImagePrefix) && JsText.StartsWith(mimetype, VideoPrefix)
    ensures r == Document <==> !JsText.StartsWith(mimetype, ImagePrefix) && !JsText.StartsWith(mimetype, VideoPrefix)
  {
    if JsText.StartsWith(mimetype, ImagePrefix) then Image
    else if JsText.StartsWith(mimetype, VideoPrefix) then Video
    else Document
  }

  /** Any `image/...` or `video/...` type is classified by its family, whatever
      its subtype. */
  lemma MediaTypeOfFamily(subtype: string)
    ensures GetMediaType(ImagePrefix + subtype) == Image
    ensures GetMediaType(VideoPrefix + subtype) == Video
  {
    assert (ImagePrefix + subtype)[..|ImagePrefix|] == ImagePrefix;
    assert (VideoPrefix + subtype)[..|VideoPrefix|] == VideoPrefix;
    assert (VideoPrefix + subtype)[0] != ImagePrefix[0];
  }

  /** The classification reads only the first six characters: anything after
      them never changes it, and a shorter type is always a document. */
  lemma {:induction false} MediaTypeReadsSixCharacters(mimetype: string, tail: string)
    ensures |mimetype| < 6 ==> GetMediaType(mimetype) == Document
    ensures |mimetype| >= 6 ==> GetMediaType(mimetype + tail) == GetMediaType(mimetype)
  {
    if |mimetype| >= 6 {
      assert (mimetype + tail)[..6] == mimetype[..6];
    }
  }

  // ---------------------------------------------------------------------
  // Media store: storage name and path of an uploaded file

  const UploadDir: string := "uploads/"

  /** What the upload middleware reports about a stored file. */
  datatype UploadedFile = UploadedFile(originalName: string, mimetype: string, filename: string)

  /** The storage name: the upload instant in milliseconds, `-`, then the
      original name unchanged. */
  function StoredFilename(uploadTime: nat, originalName: string): (f: string)
    ensures |f| == |JsText.NatToDecimal(uploadTime)| + 1 + |originalName|
    ensures f[|f| - |originalName|..] == originalName
    ensures JsText.StartsWith(f, JsText.NatToDecimal(uploadTime) + "-")
  {
    var f := JsText.NatToDecimal(uploadTime) + "-" + originalName;
    assert f[..|JsText.NatToDecimal(uploadTime) + "-"|] == JsText.NatToDecimal(uploadTime) + "-";
    f
  }

  /** Position of the first `-` in `s`, or `|s|` when there is none. */
  function IndexOfDash(s: string): (k: nat)
    ensures k <= |s|
    ensures k < |s| ==> s[k] == '-'
    ensures forall i :: 0 <= i < k ==> s[i] != '-'
  {
    if s == [] || s[0] == '-' then 0 else 1 + IndexOfDash(s[1..])
  }

  /** Reading a storage name back: the digits before the first `-` are the
      upload instant, everything after it the original name. */
  function ParseStoredFilename(f: string): Option<(nat, string)>
  {
    var k := IndexOfDash(f);
    if k == |f| || k == 0 || !JsText.IsDecimal(f[..k]) then None
    else Some((JsText.DecimalToNat(f[..k]), f[k + 1..]))
  }

  /** A storage name determines the upload instant and the original name,
      even when the original name itself contains `-`. */
  lemma StoredFilenameRoundTrip(uploadTime: nat, originalName: string)
    ensures ParseStoredFilename(StoredFilename(uploadTime, originalName)) == Some((uploadTime, originalName))
  {
    var d := JsText.NatToDecimal(uploadTime);
    var f := StoredFilename(uploadTime, originalName);
    assert f == d + "-" + originalName;
    assert f[|d|] == '-';
    assert forall i :: 0 <= i < |d| ==> f[i] == d[i];
    assert IndexOfDash(f) == |d|;
    assert f[..|d|] == d;
    assert f[|d| + 1..] == originalName;
    JsText.DecimalRoundTrip(uploadTime);
  }

  /** Distinct uploads get distinct storage names unless both the instant and
      the original name coincide. */
  lemma StoredFilenameInjective(t1: nat, name1: string, t2: nat, name2: string)
    requires StoredFilename(t1, name1) == StoredFilename(t2, name2)
    ensures t1 == t2 && name1 == name2
  {
    StoredFilenameRoundTrip(t1, name1);
    StoredFilenameRoundTrip(t2, name2);
  }

  /** The upload middleware's record of a file stored at `uploadTime`. */
  function StoreUpload(uploadTime: nat, originalName: string, mimetype: string): (u: UploadedFile)
    ensures u.originalName == originalName && u.mimetype == mimetype
    ensures ParseStoredFilename(u.filename) == Some((uploadTime, originalName))
    ensures u.filename == StoredFilename(uploadTime, originalName)
  {
    StoredFilenameRoundTrip(uploadTime, originalName);
    UploadedFile(originalName, mimetype, StoredFilename(uploadTime, originalName))
  }

  /** The post's `media` path of a stored file. */
  function MediaPath(filename: string): (path: string)
    ensures JsText.StartsWith(path, UploadDir) && path[|UploadDir|..] == filename
  {
    var path := UploadDir + filename;
    assert path[..|UploadDir|] == UploadDir;
    path
  }

  /** Reading a `media` path back to the upload it names. */
  function ParseMediaPath(path: string): Option<(nat, string)>
  {
    if JsText.StartsWith(path, UploadDir) then ParseStoredFilename(path[|UploadDir|..]) else None
  }

  // ---------------------------------------------------------------------
  // Post records

  datatype Post = Post(
    id: nat,
    text: string,
    media: Option<string>,
    mediaType: Option<MediaType>,
    originalName: Option<string>,
    timestamp: string)

  /** `media`, `mediaType` and `originalName` are absent together or present together. */
  predicate MediaFieldsAgree(p: Post)
  {
    (p.media.None? && p.mediaType.None? && p.originalName.None?) ||
    (p.media.Some? && p.mediaType.Some? && p.originalName.Some?)
  }

  /** A post with something to show: visible text or an attachment. */
  predicate HasContent(p: Post)
  {
    JsText.Trim(p.text) != [] || p.media.Some?
  }

  /** `text || ''` on the submitted text field. */
  function SubmittedText(text: Option<string>): (r: string)
    ensures text.Some? ==> r == text.value
    ensures text.None? ==> r == ""
  {
    match text
    case None => ""
    case Some(s) => if s == "" then "" else s
  }

  /** The record the POST handler builds from a submission, with the post
      id and the ISO timestamp taken from the clock. */
  function NewPost(id: nat, text: Option<string>, file: Option<UploadedFile>, timestamp: string): (p: Post)
    ensures MediaFieldsAgree(p)
    ensures p.id == id && p.timestamp == timestamp && p.text == SubmittedText(text)
    ensures p.media.Some? <==> file.Some?
    ensures file.Some? ==>
      p.originalName == Some(file.value.originalName) &&
      p.mediaType == Some(GetMediaType(file.value.mimetype)) &&
      p.media == Some(MediaPath(file.value.filename))
  {
    Post(
      id,
      SubmittedText(text),
      if file.Some? then Some(UploadDir + file.value.filename) else None,
      if file.Some? then Some(GetMediaType(file.value.mimetype)) else None,
      if file.Some? then Some(file.value.originalName) else None,
      timestamp)
  }

  /** A post made from an uploaded file names that file: its `media` path
      reads back to the upload instant and the original name it records. */
  lemma NewPostNamesStoredFile(id: nat, text: Option<string>, uploadTime: nat, originalName: string, mimetype: string, timestamp: string)
    ensures var p := NewPost(id, text, Some(StoreUpload(uploadTime, originalName, mimetype)), timestamp);
      p.media.Some? && ParseMediaPath(p.media.value) == Some((uploadTime, originalName)) &&
      p.originalName == Some(originalName) && p.mediaType == Some(GetMediaType(mimetype))
  {
  }

  /** The server itself builds a post from an absent or blank text and no
      file: the "text or media" rule is the client's alone. */
  lemma ServerAcceptsEmptySubmission(id: nat, text: Option<string>, timestamp: string)
    requires text.None? || JsText.AllWhitespace(text.value)
    ensures !HasContent(NewPost(id, text, None, timestamp))
  {
  }

  // ---------------------------------------------------------------------
  // Post repository

  /** The data file: absent, holding a parsed collection, or holding text the
      JSON parser rejects (with the parser's message). */
  datatype DataFile = Missing | Stored(posts: seq<Post>) | Unreadable(reason: string)

  /** `posts.unshift(p)`: the new post at index 0, every older post one place later. */
  function Unshift(posts: seq<Post>, p: Post): (r: seq<Post>)
    ensures |r| == |posts| + 1 && r[0] == p
    ensures forall i :: 0 <= i < |posts| ==> r[i + 1] == posts[i]
  {
    [p] + posts
  }

  /** Posts appended one after another come out newest first. */
  lemma SequentialAppendsNewestFirst(posts: seq<Post>, batch: seq<Post>)
    ensures Seqs.PrependEach(batch, posts) == Seqs.Reversed(batch) + posts
  {
    Seqs.PrependEachReverses(batch, posts);
  }

  lemma AppendsABC(a: Post, b: Post, c: Post)
    ensures Seqs.PrependEach([a, b, c], []) == [c, b, a]
  {
    SequentialAppendsNewestFirst([], [a, b, c]);
  }

  /** The single data file holding the whole post collection. */
  class PostRepository {
    var dataFile: DataFile

    constructor(initial: DataFile)
      ensures dataFile == initial
    {
      dataFile := initial;
    }

    /** The collection as `readPosts` sees it. */
    ghost function Contents(): Result<seq<Post>>
      reads this
    {
      match dataFile
      case Missing => Ok([])
      case Stored(posts) => Ok(posts)
      case Unreadable(reason) => Err(reason)
    }

    /** `readPosts`: no data file is the empty collection; an unparseable one fails. */
    method ReadAll() returns (r: Result<seq<Post>>)
      ensures r == Contents()
      ensures dataFile.Missing? ==> r == Ok([])
      ensures dataFile.Stored? ==> r == Ok(dataFile.posts)
      ensures dataFile.Unreadable? ==> r.Err?
    {
      if dataFile.Missing? {
        return Ok([]);
      }
      if dataFile.Unreadable? {
        return Err(dataFile.reason);
      }
      r := Ok(dataFile.posts);
    }

    /** `writePosts`: the whole stored collection is replaced. */
    method WriteAll(posts: seq<Post>)
      modifies this
      ensures dataFile == Stored(posts)
      ensures Contents() == Ok(posts)
    {
      dataFile := Stored(posts);
    }

    /** Read, `unshift`, write back. When the read fails nothing is written. */
    method AppendFront(p: Post) returns (r: Result<seq<Post>>)
      modifies this
      ensures r.Ok? <==> old(Contents()).Ok?
      ensures r.Ok? ==> r.value == Unshift(old(Contents()).value, p) && Contents() == r
      ensures r.Err? ==> r == old(Contents()) && dataFile == old(dataFile)
    {
      var loaded := ReadAll();
      if loaded.Err? {
        return loaded;
      }
      var posts := Unshift(loaded.value, p);
      WriteAll(posts);
      r := Ok(posts);
    }
  }

  // ---------------------------------------------------------------------
  // HTTP handlers

  datatype Body =
    | PostList(posts: seq<Post>)
    | Created(post: Post)
    | ErrorText(message: string)
    | DefaultErrorPage

  datatype Response = Response(status: nat, body: Body)

  const InternalErrorPrefix: string := "Internal Server Error: "

  /** `GET /api/posts`: the stored collection, unchanged. A read failure is
      thrown outside any `try` and reaches the framework's default 500 page. */
  method HandleGet(repo: PostRepository) returns (res: Response)
    ensures repo.Contents().Ok? ==> res == Response(200, PostList(repo.Contents().value))
    ensures repo.Contents().Err? ==> res == Response(500, DefaultErrorPage)
  {
    var loaded := repo.ReadAll();
    if loaded.Ok? {
      res := Response(200, PostList(loaded.value));
    } else {
      res := Response(500, DefaultErrorPage);
    }
  }

  /** `POST /api/posts`: build the record, prepend it to the collection and
      echo it with 201; a failed read answers 500 and stores nothing.
      `now` is the `Date.now()` of the id, `isoNow` the ISO timestamp. */
  method HandlePost(repo: PostRepository, now: nat, text: Option<string>, file: Option<UploadedFile>, isoNow: string)
    returns (res: Response)
    modifies repo
    ensures old(repo.Contents()).Ok? ==>
      res == Response(201, Created(NewPost(now, text, file, isoNow))) &&
      repo.Contents() == Ok(Unshift(old(repo.Contents()).value, NewPost(now, text, file, isoNow)))
    ensures old(repo.Contents()).Err? ==>
      res == Response(500, ErrorText(InternalErrorPrefix + old(repo.Contents()).message)) &&
      repo.dataFile == old(repo.dataFile)
  {
    var newPost := NewPost(now, text, file, isoNow);
    var stored := repo.AppendFront(newPost);
    if stored.Ok? {
      res := Response(201, Created(newPost));
    } else {
      res := Response(500, ErrorText(InternalErrorPrefix + stored.message));
    }
  }

  /** Two GETs with nothing in between answer the same. */
  method TwoReads(repo: PostRepository) returns (first: Response, second: Response)
    ensures first == second
    ensures first.status == 200 <==> repo.Contents().Ok?
  {
    first := HandleGet(repo);
    second := HandleGet(repo);
  }

  /** A created post is what a following GET lists first, field for field. */
  method PostThenGet(repo: PostRepository, now: nat, text: Option<string>, file: Option<UploadedFile>, isoNow: string)
    returns (created: Response, listed: Response)
    modifies repo
    ensures created.status == 201 ==>
      listed.status == 200 && listed.body.PostList? && |listed.body.posts| > 0 &&
      created.body == Created(listed.body.posts[0])
    ensures created.status != 201 ==> listed.status == 500
  {
    created := HandlePost(repo, now, text, file, isoNow);
    listed := HandleGet(repo);
  }

  /** Three POSTs A, B, C sent to a server with no data file, then a GET,
      list the three built posts as C, B, A. */
  method ThreePostsFromEmpty(
    nowA: nat, textA: Option<string>, fileA: Option<UploadedFile>, isoA: string,
    nowB: nat, textB: Option<string>, fileB: Option<UploadedFile>, isoB: string,
    nowC: nat, textC: Option<string>, fileC: Option<UploadedFile>, isoC: string)
    returns (listed: Response)
    ensures listed == Response(200, PostList([
      NewPost(nowC, textC, fileC, isoC),
      NewPost(nowB, textB, fileB, isoB),
      NewPost(nowA, textA, fileA, isoA)]))
  {
    var repo := new PostRepository(Missing);
    var res := HandlePost(repo, nowA, textA, fileA, isoA);
    res := HandlePost(repo, nowB, textB, fileB, isoB);
    res := HandlePost(repo, nowC, textC, fileC, isoC);
    var a, b, c := NewPost(nowA, textA, fileA, isoA), NewPost(nowB, textB, fileB, isoB), NewPost(nowC, textC, fileC, isoC);
    assert [c] + ([b] + ([a] + [])) == [c, b, a];
    listed := HandleGet(repo);
  }
}
