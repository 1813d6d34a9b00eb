/**
 * The contact form: the recipients list of the form's settings, what a
 * stored attachment is shown as, where an attachment is filed, the checks
 * a submission passes, and the record `create` writes.
 */
module Feedback {
  import opened Wrappers
  import opened Text
  import opened Uploads

  // ---------------------------------------------------------------------
  // Settings: the recipients list
  // ---------------------------------------------------------------------

  /** The default of the settings' recipients text. */
  const DefaultRecipients := "admin@example.com"

  /** The stripped entries of `parts` that are not empty, in order. */
  function Cleaned(parts: seq<string>): (r: seq<string>)
    ensures |r| <= |parts|
    ensures forall x :: x in r ==> x != "" && Strip(x) == x
    ensures (forall y :: y in parts ==> ',' !in y) ==> forall x :: x in r ==> ',' !in x
  {
    if parts == [] then []
    else
      var rest := Cleaned(parts[1..]);
      var e := Strip(parts[0]);
      StrippedEntry(parts[0]);
      if e == "" then rest else [e] + rest
  }

  /** A stripped entry is its own strip, and it has no comma the raw entry did not have. */
  lemma StrippedEntry(s: string)
    ensures Strip(Strip(s)) == Strip(s)
    ensures ',' !in s ==> ',' !in Strip(s)
  {
    StripIdempotent(s);
    var a := LeadingSpaces(s);
    assert Strip(s) == s[a..a + |Strip(s)|];
  }

  /** `get_email_list`: the comma-separated entries, stripped, empty ones dropped, in order. */
  function EmailList(recipients: string): (r: seq<string>)
    ensures forall x :: x in r ==> x != "" && Strip(x) == x && ',' !in x
  {
    var parts := Split(recipients, ',');
    assert forall y :: y in parts ==> ',' !in y;
    Cleaned(parts)
  }

  lemma {:induction false} CleanedKeeps(parts: seq<string>)
    requires forall k :: 0 <= k < |parts| ==> parts[k] != "" && Strip(parts[k]) == parts[k]
    ensures Cleaned(parts) == parts
  {
    if parts != [] {
      CleanedKeeps(parts[1..]);
    }
  }

  /**
   * Writing a list of addresses joined by commas gives that list back:
   * every address is kept, in order, with nothing added.
   */
  lemma EmailListRoundTrip(emails: seq<string>)
    requires forall k :: 0 <= k < |emails| ==> emails[k] != "" && Strip(emails[k]) == emails[k] && ',' !in emails[k]
    ensures EmailList(Join(emails, ",")) == emails
  {
    if emails == [] {
      assert Split("", ',') == [""];
      assert Strip("") == "";
    } else {
      JoinThenSplit(emails, ',');
      CleanedKeeps(emails);
    }
  }

  // ---------------------------------------------------------------------
  // A stored attachment
  // ---------------------------------------------------------------------

  /** `attachment_filename`: the last component of the stored name, `None` without a file. */
  function AttachmentFilename(name: string): (r: Option<string>)
    ensures r.None? <==> name == ""
    ensures r.Some? ==> '/' !in r.value && |r.value| <= |name| && r.value == name[|name| - |r.value|..]
    ensures r.Some? && '/' !in name ==> r.value == name
  {
    if name == "" then None else Some(Basename(name))
  }

  /** `attachment_extension`: the extension of the stored name, dot included, lower-cased; `None` without a file. */
  function AttachmentExtension(name: string): (r: Option<string>)
    ensures r.None? <==> name == ""
    ensures r.Some? ==> r.value == [] || (r.value[0] == '.' && '.' !in r.value[1..] && '/' !in r.value)
  {
    if name == "" then None else Some(Lower(SplitExt(name)))
  }

  const ImageExtensions := [".jpg", ".jpeg", ".png", ".gif", ".webp"]

  predicate IsImage(name: string) {
    AttachmentExtension(name).Some? && AttachmentExtension(name).value in ImageExtensions
  }

  predicate IsPdf(name: string) {
    AttachmentExtension(name) == Some(".pdf")
  }

  /** No file is neither an image nor a PDF, and no file is both. */
  lemma AttachmentKinds(name: string)
    ensures name == "" ==> !IsImage(name) && !IsPdf(name) && AttachmentFilename(name).None?
    ensures !(IsImage(name) && IsPdf(name))
  {
  }

  // ---------------------------------------------------------------------
  // Where an attachment is filed
  // ---------------------------------------------------------------------

  /** `uuid4().hex`: 32 lower-case hexadecimal digits. */
  predicate IsUuidHex(hex: string) {
    |hex| == 32 && forall i :: 0 <= i < |hex| ==> IsHex(hex[i])
  }

  lemma StemPlain(hex: string)
    requires IsUuidHex(hex)
    ensures '/' !in hex[..8] && '.' !in hex[..8] && |hex[..8]| == 8
  {
    var h := hex[..8];
    assert forall i :: 0 <= i < |h| ==> IsHex(h[i]);
  }

  /** Reading a date off a message whose `created_at` is unset fails (`None` has no `strftime`). */
  datatype Fault = CreatedAtUnset

  /**
   * `feedback_file_path` as written: `feedback/<YYYY>/<MM>/<8 hex>.<ext>`,
   * dated by the message's `created_at`, and failing when that is unset.
   */
  function FeedbackFilePath(filename: string, hex: string, createdAt: Option<Date>): (r: Result<string, Fault>)
    requires IsUuidHex(hex) && (createdAt.Some? ==> ValidDate(createdAt.value))
    ensures r.Err? <==> createdAt.None?
    ensures r.Ok? && '/' !in filename ==>
              Split(r.value, '/') == ["feedback", NatToString(createdAt.value.year), ZeroPad(createdAt.value.month, 2),
                                      hex[..8] + "." + UploadExtension(filename)]
    ensures r.Ok? ==> LastField(r.value, '.') == UploadExtension(filename)
  {
    match createdAt
    case None => Err(CreatedAtUnset)
    case Some(d) =>
      StemPlain(hex);
      Ok(DatedPath("feedback", d, hex[..8], filename))
  }

  /**
   * The path as evidently intended, in the way of the import files: dated
   * by `created_at` when the message has one and by the clock otherwise.
   */
  function FeedbackFilePathFixed(filename: string, hex: string, createdAt: Option<Date>, now: Date): (path: string)
    requires IsUuidHex(hex) && ValidDate(now) && (createdAt.Some? ==> ValidDate(createdAt.value))
    ensures var d := createdAt.GetOr(now);
            '/' !in filename ==>
              Split(path, '/') == ["feedback", NatToString(d.year), ZeroPad(d.month, 2), hex[..8] + "." + UploadExtension(filename)]
    ensures LastField(path, '.') == UploadExtension(filename)
  {
    StemPlain(hex);
    DatedPath("feedback", createdAt.GetOr(now), hex[..8], filename)
  }

  /** A message as first written: its attachment's path ("" without a file) and its creation month. */
  datatype Stored = Stored(attachment: string, createdAt: Date)

  /**
   * The first save of a message, as written. The fields are prepared in
   * declaration order and `attachment` is declared before `created_at`, so
   * the upload path is computed while `created_at` is still unset; only
   * afterwards does `created_at` receive the time of the save. Every new
   * message with a file fails.
   */
  function SaveNew(upload: Option<string>, hex: string, now: Date): (r: Result<Stored, Fault>)
    requires IsUuidHex(hex) && ValidDate(now)
    ensures upload.None? ==> r == Ok(Stored("", now))
    ensures upload.Some? ==> r == Err(CreatedAtUnset)
  {
    match upload
    case None => Ok(Stored("", now))
    case Some(filename) =>
      match FeedbackFilePath(filename, hex, None)
      case Err(e) => Err(e)
      case Ok(path) => Ok(Stored(path, now))
  }

  /** The first save with the corrected path: the file is filed under the month the message is created. */
  function SaveNewFixed(upload: Option<string>, hex: string, now: Date): (r: Stored)
    requires IsUuidHex(hex) && ValidDate(now)
    ensures r.createdAt == now
    ensures upload.None? <==> r.attachment == ""
    ensures upload.Some? && '/' !in upload.value ==>
              Split(r.attachment, '/') == ["feedback", NatToString(now.year), ZeroPad(now.month, 2),
                                           hex[..8] + "." + UploadExtension(upload.value)]
  {
    match upload
    case None => Stored("", now)
    case Some(filename) =>
      var path := FeedbackFilePathFixed(filename, hex, None, now);
      assert path != "" by {
        StemPlain(hex);
        assert path == DatedPath("feedback", now, hex[..8], filename);
      }
      Stored(path, now)
  }

  // ---------------------------------------------------------------------
  // Checks of a submission
  // ---------------------------------------------------------------------

  const PrivacyRequired := "Необходимо принять политику конфиденциальности"

  /** `validate_privacy_policy_accepted`: only an accepted policy passes. */
  function CheckPrivacy(accepted: bool): (r: Result<bool, string>)
    ensures r.Ok? <==> accepted
    ensures r.Ok? ==> r.value == accepted
    ensures r.Err? ==> r.error == PrivacyRequired
  {
    if !accepted then Err(PrivacyRequired) else Ok(accepted)
  }

  /** An uploaded file: its name (without directories), its size in bytes and its declared content type. */
  datatype Upload = Upload(name: string, size: nat, contentType: string)

  datatype UploadError = EmptyFile | BadExtension(ext: string) | TooLarge(size: nat) | BadContentType(contentType: string)

  /** 10 MB. */
  const MaxUploadSize: nat := 10 * 1024 * 1024

  const AllowedExtensions := ["jpg", "jpeg", "png", "gif", "pdf"]

  const AllowedContentTypes := ["image/jpeg", "image/png", "image/gif", "application/pdf"]

  /** The extension the extension validator compares: the name's suffix without its dot, lower-cased. */
  function ValidatorExtension(name: string): (ext: string)
    ensures ext != [] ==> PathSuffix(name) != [] && ext == Lower(PathSuffix(name)[1..])
  {
    var suffix := PathSuffix(name);
    if suffix == [] then [] else Lower(suffix[1..])
  }

  /**
   * The attachment field: no file passes; a file must be non-empty, carry
   * an allowed extension, weigh at most 10 MB (exactly 10 MB passes) and
   * declare an allowed content type, checked in that order.
   */
  function CheckAttachment(value: Option<Upload>): (r: Result<Option<Upload>, UploadError>)
    ensures r.Ok? ==> r.value == value
    ensures value.None? ==> r.Ok?
    ensures value.Some? ==>
              (r.Ok? <==> 0 < value.value.size <= MaxUploadSize
                          && ValidatorExtension(value.value.name) in AllowedExtensions
                          && value.value.contentType in AllowedContentTypes)
    ensures value.Some? && value.value.size == 0 ==> r == Err(EmptyFile)
    ensures value.Some? && value.value.size > MaxUploadSize && ValidatorExtension(value.value.name) in AllowedExtensions
            ==> r == Err(TooLarge(value.value.size))
  {
    match value
    case None => Ok(None)
    case Some(u) =>
      if u.size == 0 then Err(EmptyFile)
      else if ValidatorExtension(u.name) !in AllowedExtensions then Err(BadExtension(ValidatorExtension(u.name)))
      else if u.size > MaxUploadSize then Err(TooLarge(u.size))
      else if u.contentType !in AllowedContentTypes then Err(BadContentType(u.contentType))
      else Ok(value)
  }

  /**
   * One way of matching the model's phone pattern `^\+?1?\d{9,15}$`:
   * `a` characters for the optional '+', `b` for the optional '1', then
   * nine to fifteen digits.
   */
  predicate PhoneSplit(p: string, a: nat, b: nat) {
    a + b <= |p| && (a == 1 ==> p[0] == '+') && (b == 1 ==> p[a] == '1')
    && IsDigits(p[a + b..]) && 9 <= |p| - a - b <= 15
  }

  /** The pattern read literally: some choice of the two optional parts matches. */
  predicate PhoneRegex(p: string) {
    PhoneSplit(p, 0, 0) || PhoneSplit(p, 0, 1) || PhoneSplit(p, 1, 0) || PhoneSplit(p, 1, 1)
  }

  /** The same pattern decided without search: after an optional '+', 9–15 digits, or 16 starting with '1'. */
  predicate PhonePattern(p: string) {
    var q := if |p| > 0 && p[0] == '+' then p[1..] else p;
    IsDigits(q) && 9 <= |q| && (|q| <= 15 || (|q| == 16 && q[0] == '1'))
  }

  lemma PhonePatternIsRegex(p: string)
    ensures PhonePattern(p) <==> PhoneRegex(p)
  {
    if |p| > 0 && p[0] == '+' {
      var q := p[1..];
      assert p[1 + 0..] == q;
      if |p| >= 2 {
        assert p[1 + 1..] == q[1..];
      }
      assert !PhoneSplit(p, 0, 0) && !PhoneSplit(p, 0, 1) by {
        assert !IsDigit(p[0]);
        assert |p| > 1 ==> p[0 + 0..][0] == '+';
      }
    } else {
      assert p[0 + 0..] == p;
      assert |p| > 0 ==> p[0 + 1..] == p[1..];
    }
  }

  /** A phone text that passes the serializer's own check: digits once '+' and ' ' are removed. */
  predicate PhoneCharsOk(p: string) {
    p == "" || IsDigits(RemoveChar(RemoveChar(p, '+'), ' '))
  }

  lemma {:induction false} RemoveAbsent(s: string, c: char)
    requires c !in s
    ensures RemoveChar(s, c) == s
  {
    if s != [] {
      RemoveAbsent(s[1..], c);
      assert s == [s[0]] + s[1..];
    }
  }

  /** The serializer's phone check never refuses a phone the model's pattern accepts. */
  lemma PatternPassesCharCheck(p: string)
    requires PhonePattern(p)
    ensures PhoneCharsOk(p)
  {
    var q := if |p| > 0 && p[0] == '+' then p[1..] else p;
    assert '+' !in q && ' ' !in q;
    RemoveAbsent(q, '+');
    RemoveAbsent(q, ' ');
    if |p| > 0 && p[0] == '+' {
      assert p == ['+'] + q;
      assert RemoveChar(p, '+') == RemoveChar(q, '+');
    }
  }

  datatype PhoneError = PhoneTooLong | PhoneFormat | PhoneChars

  /**
   * The phone field: the text is trimmed; an empty phone passes; otherwise
   * it must fit 20 characters, match the model's pattern and pass the
   * serializer's check, in that order.
   */
  function CheckPhone(raw: string): (r: Result<string, PhoneError>)
    ensures r.Ok? ==> r.value == Strip(raw)
    ensures r.Ok? <==> Strip(raw) == "" || (|Strip(raw)| <= 20 && PhoneRegex(Strip(raw)))
    ensures r.Err? ==> r.error != PhoneChars
  {
    var p := Strip(raw);
    PhonePatternIsRegex(p);
    if p == "" then Ok(p)
    else if |p| > 20 then Err(PhoneTooLong)
    else if !PhonePattern(p) then Err(PhoneFormat)
    else if !PhoneCharsOk(p) then
      PatternPassesCharCheck(p);
      assert false;
      Err(PhoneChars)
    else Ok(p)
  }

  // ---------------------------------------------------------------------
  // The record `create` writes
  // ---------------------------------------------------------------------

  /** A value of the validated data: text, nothing, or a flag. */
  datatype Value = Str(s: string) | Null | Flag(b: bool)

  /** The validated data, keyed by field name: what the new message is created from. */
  type Row = map<string, Value>

  /** The request headers (`request.META`). */
  type Meta = map<string, string>

  function Header(meta: Meta, key: string): string {
    if key in meta then meta[key] else ""
  }

  /**
   * `_get_client_ip`: the first entry of `X-Forwarded-For`, trimmed, when
   * that header is non-empty; otherwise the peer address, if any.
   */
  function ClientIp(meta: Meta): (r: Option<string>)
    ensures Header(meta, "HTTP_X_FORWARDED_FOR") != "" ==> r.Some? && ',' !in r.value
    ensures Header(meta, "HTTP_X_FORWARDED_FOR") == "" ==>
              r == (if "REMOTE_ADDR" in meta then Some(meta["REMOTE_ADDR"]) else None)
  {
    var forwarded := Header(meta, "HTTP_X_FORWARDED_FOR");
    if forwarded != "" then
      var first := FirstField(forwarded, ',');
      assert Strip(first) == first[LeadingSpaces(first)..LeadingSpaces(first) + |Strip(first)|];
      Some(Strip(first))
    else if "REMOTE_ADDR" in meta then Some(meta["REMOTE_ADDR"])
    else None
  }

  /** Behind proxies, the address is the first hop's, whatever follows it. */
  lemma ClientIpFirstHop(meta: Meta, first: string, rest: string)
    requires "HTTP_X_FORWARDED_FOR" in meta && meta["HTTP_X_FORWARDED_FOR"] == first + "," + rest
    requires ',' !in first
    ensures ClientIp(meta) == Some(Strip(first))
  {
    var s := first + "," + rest;
    assert s[|first|] == ',' && s[..|first|] == first;
    assert IndexOf(s, ',') == |first|;
  }

  function IpValue(ip: Option<string>): Value {
    match ip
    case None => Null
    case Some(a) => Str(a)
  }

  /** The keys `create` sets from the request. */
  const MetaKeys := {"ip_address", "user_agent", "referer"}

  /**
   * The request part of `create`: with a request, the client address and
   * the first 500 characters of the user agent and of the referring page
   * are set; every other entry is kept.
   */
  method AddRequestMeta(data: Row, request: Option<Meta>) returns (r: Row)
    ensures request.None? ==> r == data
    ensures request.Some? ==> r.Keys == data.Keys + MetaKeys
    ensures request.Some? ==>
              && r["ip_address"] == IpValue(ClientIp(request.value))
              && r["user_agent"] == Str(Take(Header(request.value, "HTTP_USER_AGENT"), 500))
              && r["referer"] == Str(Take(Header(request.value, "HTTP_REFERER"), 500))
    ensures forall k :: k in data && k !in MetaKeys ==> k in r && r[k] == data[k]
  {
    r := data;
    if request.Some? {
      var meta := request.value;
      r := r["ip_address" := IpValue(ClientIp(meta))];
      r := r["user_agent" := Str(Take(Header(meta, "HTTP_USER_AGENT"), 500))];
      r := r["referer" := Str(Take(Header(meta, "HTTP_REFERER"), 500))];
    }
  }

  /**
   * `create` as written: the privacy-policy URL is removed before the
   * message is written, then the request details are added.
   */
  method Create(validated: Row, request: Option<Meta>) returns (data: Row)
    ensures "privacy_policy_url" !in data
    ensures request.None? ==> data == validated - {"privacy_policy_url"}
    ensures request.Some? ==> data.Keys == (validated.Keys - {"privacy_policy_url"}) + MetaKeys
    ensures request.Some? ==>
              && data["ip_address"] == IpValue(ClientIp(request.value))
              && data["user_agent"] == Str(Take(Header(request.value, "HTTP_USER_AGENT"), 500))
              && data["referer"] == Str(Take(Header(request.value, "HTTP_REFERER"), 500))
    ensures forall k :: k in validated && k !in MetaKeys && k != "privacy_policy_url" ==> k in data && data[k] == validated[k]
  {
    data := validated - {"privacy_policy_url"};
    data := AddRequestMeta(data, request);
  }

  /** The privacy-policy URL a message is written with: the entry's text, or the column's default "". */
  function PrivacyUrlColumn(data: Row): string {
    if "privacy_policy_url" in data && data["privacy_policy_url"].Str? then data["privacy_policy_url"].s else ""
  }

  /**
   * Saving a valid submission as written: the URL chosen for the message
   * is handed to `save` next to the validated data, and `create` removes
   * it again, so every message is written without the URL.
   */
  method Submit(validated: Row, privacyUrl: string, request: Option<Meta>) returns (data: Row)
    ensures PrivacyUrlColumn(data) == ""
    ensures forall k :: k in validated && k !in MetaKeys && k != "privacy_policy_url" ==> k in data && data[k] == validated[k]
  {
    data := Create(validated["privacy_policy_url" := Str(privacyUrl)], request);
  }

  /** `create` as evidently intended: the privacy-policy URL is a column of the message and is kept. */
  method CreateFixed(validated: Row, request: Option<Meta>) returns (data: Row)
    ensures "privacy_policy_url" in validated ==> "privacy_policy_url" in data && data["privacy_policy_url"] == validated["privacy_policy_url"]
    ensures request.None? ==> data == validated
    ensures request.Some? ==> data.Keys == validated.Keys + MetaKeys
    ensures request.Some? ==>
              && data["ip_address"] == IpValue(ClientIp(request.value))
              && data["user_agent"] == Str(Take(Header(request.value, "HTTP_USER_AGENT"), 500))
              && data["referer"] == Str(Take(Header(request.value, "HTTP_REFERER"), 500))
    ensures forall k :: k in validated && k !in MetaKeys ==> k in data && data[k] == validated[k]
  {
    data := AddRequestMeta(validated, request);
  }

  /** Saving with the corrected `create`: the message keeps the URL chosen for it. */
  method SubmitFixed(validated: Row, privacyUrl: string, request: Option<Meta>) returns (data: Row)
    ensures PrivacyUrlColumn(data) == privacyUrl
    ensures forall k :: k in validated && k !in MetaKeys && k != "privacy_policy_url" ==> k in data && data[k] == validated[k]
  {
    data := CreateFixed(validated["privacy_policy_url" := Str(privacyUrl)], request);
  }

  // ---------------------------------------------------------------------
  // Accepted files are shown as images or PDFs
  // ---------------------------------------------------------------------

  /** In `<head><stem>.<ext>` the last dot is the one before `ext`. */
  lemma LastDotOfStored(head: string, stem: string, ext: string)
    requires '.' !in ext
    ensures LastIndexOf(head + stem + "." + ext, '.') == |head| + |stem|
  {
    var p := head + stem + "." + ext;
    assert p[|head| + |stem| + 1..] == ext;
    LastIndexOfIs(p, '.', |head| + |stem|);
  }

  /** In `<head><stem>.<ext>` with `head` ending in '/', the last '/' ends `head`. */
  lemma LastSlashOfStored(head: string, stem: string, ext: string)
    requires |head| > 0 && head[|head| - 1] == '/'
    requires '/' !in stem && '/' !in ext
    ensures LastIndexOf(head + stem + "." + ext, '/') == |head| - 1
  {
    var p := head + stem + "." + ext;
    var tail := stem + "." + ext;
    assert p == head + tail;
    assert p[|head|..] == tail;
    assert '/' !in tail;
    LastIndexOfIs(p, '/', |head| - 1);
  }

  /** `splitext` picks the text from the last dot when that dot follows the last '/' and not only dots precede it. */
  lemma SplitExtAt(p: string, sep: int, dot: int)
    requires LastIndexOf(p, '/') == sep && LastIndexOf(p, '.') == dot && sep < dot
    requires !OnlyDots(p[sep + 1..dot])
    ensures SplitExt(p) == p[dot..]
  {
  }

  /** The extension of a stored path `<head><stem>.<ext>` is `.<ext>`. */
  lemma StoredExtension(head: string, stem: string, ext: string)
    requires |head| > 0 && head[|head| - 1] == '/'
    requires stem != [] && '.' !in stem && '/' !in stem
    requires '.' !in ext && '/' !in ext
    ensures SplitExt(head + stem + "." + ext) == "." + ext
  {
    var p := head + stem + "." + ext;
    var dot := |head| + |stem|;
    LastDotOfStored(head, stem, ext);
    LastSlashOfStored(head, stem, ext);
    assert p[|head|..dot] == stem;
    assert !OnlyDots(stem) by {
      assert stem[0] != '.';
    }
    SplitExtAt(p, |head| - 1, dot);
    assert p[dot..] == "." + ext;
  }

  /** The extension written into the stored path is the one the extension validator saw. */
  lemma UploadExtensionOfAccepted(name: string)
    requires ValidatorExtension(name) in AllowedExtensions
    ensures PathSuffix(name) != [] && UploadExtension(name) == PathSuffix(name)[1..]
  {
    var i := LastIndexOf(name, '.');
    LastFieldAfterLast(name, '.');
    assert PathSuffix(name) == name[i..];
  }

  /** The directory part of a stored path: `feedback/<YYYY>/<MM>/`. */
  function StoredHead(d: Date): (head: string)
    requires ValidDate(d)
    ensures |head| > 0 && head[|head| - 1] == '/'
  {
    "feedback" + "/" + NatToString(d.year) + "/" + ZeroPad(d.month, 2) + "/"
  }

  lemma StoredShape(filename: string, hex: string, now: Date)
    requires IsUuidHex(hex) && ValidDate(now)
    ensures SaveNewFixed(Some(filename), hex, now).attachment == StoredHead(now) + hex[..8] + "." + UploadExtension(filename)
  {
    StemPlain(hex);
    assert FeedbackFilePathFixed(filename, hex, None, now) == DatedPath("feedback", now, hex[..8], filename);
  }

  lemma LowerDotted(ext: string)
    ensures Lower("." + ext) == "." + Lower(ext)
  {
    assert forall i :: 1 <= i <= |ext| ==> ("." + ext)[i] == ext[i - 1];
  }

  /** Every extension the form allows names an image or a PDF once a dot is put before it. */
  lemma AllowedKinds(e: string)
    requires e in AllowedExtensions
    ensures "." + e in ImageExtensions || "." + e == ".pdf"
  {
    if e == "jpg" {
      assert "." + e == ImageExtensions[0];
    } else if e == "jpeg" {
      assert "." + e == ImageExtensions[1];
    } else if e == "png" {
      assert "." + e == ImageExtensions[2];
    } else if e == "gif" {
      assert "." + e == ImageExtensions[3];
    }
  }

  /**
   * With the corrected path, every file the form accepts is shown as an
   * image or as a PDF.
   */
  lemma AcceptedFileShown(u: Upload, hex: string, now: Date)
    requires IsUuidHex(hex) && ValidDate(now)
    requires '/' !in u.name
    requires CheckAttachment(Some(u)).Ok?
    ensures var stored := SaveNewFixed(Some(u.name), hex, now).attachment;
            IsImage(stored) || IsPdf(stored)
  {
    var ext := UploadExtension(u.name);
    UploadExtensionOfAccepted(u.name);
    assert Lower(ext) in AllowedExtensions;
    StemPlain(hex);
    var head := StoredHead(now);
    var stored := SaveNewFixed(Some(u.name), hex, now).attachment;
    StoredShape(u.name, hex, now);
    StoredExtension(head, hex[..8], ext);
    LowerDotted(ext);
    AllowedKinds(Lower(ext));
  }
}
