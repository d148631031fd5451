/** The checks of the OssUrlExists validation rule as pure definitions: the
    closed set of failure keys and their fixed order, what each check rejects on
    its own, the domain classification, the MIME wildcard match, and Evaluate,
    the outcome of one validate call as a function of the rule's settings and of
    what it consults. */
module RuleChecks {
  import opened Wrappers
  import opened Strings
  import opened Urls
  import opened Storage

  /** The domain families a URL can belong to. */
  const DomainCdn := "cdn"
  const DomainUpload := "upload"
  const DomainOss := "oss"
  const DomainOssInternal := "oss_internal"

  /** The failure keys, declared in the order validate checks them. */
  datatype FailReason =
    | InvalidUrl | InvalidDisk | DomainMismatch | DomainTypeNotAllowed | InvalidPath
    | ExtensionNotAllowed | ExtensionForbidden | DirectoryNotAllowed | DirectoryForbidden
    | PathPatternMismatch | FilenamePatternMismatch | FilenameTooLong
    | FileNotFound | FileTooSmall | FileTooLarge | MimeTypeNotAllowed

  /** The key recorded in failedReason. */
  function Key(reason: FailReason): string {
    match reason
    case InvalidUrl => "invalid_url"
    case InvalidDisk => "invalid_disk"
    case DomainMismatch => "domain_mismatch"
    case DomainTypeNotAllowed => "domain_type_not_allowed"
    case InvalidPath => "invalid_path"
    case ExtensionNotAllowed => "extension_not_allowed"
    case ExtensionForbidden => "extension_forbidden"
    case DirectoryNotAllowed => "directory_not_allowed"
    case DirectoryForbidden => "directory_forbidden"
    case PathPatternMismatch => "path_pattern_mismatch"
    case FilenamePatternMismatch => "filename_pattern_mismatch"
    case FilenameTooLong => "filename_too_long"
    case FileNotFound => "file_not_found"
    case FileTooSmall => "file_too_small"
    case FileTooLarge => "file_too_large"
    case MimeTypeNotAllowed => "mime_type_not_allowed"
  }

  /** The position of a check in validate's fixed order. */
  function Rank(reason: FailReason): nat {
    match reason
    case InvalidUrl => 0
    case InvalidDisk => 1
    case DomainMismatch => 2
    case DomainTypeNotAllowed => 3
    case InvalidPath => 4
    case ExtensionNotAllowed => 5
    case ExtensionForbidden => 6
    case DirectoryNotAllowed => 7
    case DirectoryForbidden => 8
    case PathPatternMismatch => 9
    case FilenamePatternMismatch => 10
    case FilenameTooLong => 11
    case FileNotFound => 12
    case FileTooSmall => 13
    case FileTooLarge => 14
    case MimeTypeNotAllowed => 15
  }

  /** What validate learns of the disk's adapter: the configured CDN and upload
      hosts, the bucket's public and internal hosts, and isBucketUrl. */
  datatype Domains = Domains(
    cdn: Option<string>,
    upload: Option<string>,
    oss: string,
    ossInternal: string,
    isBucketUrl: string -> bool)

  /** Everything validate consults besides its own settings: HUrl::isUrlString
      and HUrl::parse, the disk's adapter (None when the disk is not an OSS
      disk), preg_match, and the metadata fetch of an unprefixed path. */
  datatype Env = Env(
    isUrlString: string -> bool,
    parse: string -> Option<Url>,
    adapter: Option<Domains>,
    pregMatch: (string, string) -> bool,
    meta: string -> Result<FileAttributes, Exception>)

  /** The policy the builder sets (None: not configured). */
  datatype RuleConfig = RuleConfig(
    checkFileExists: bool,
    allowedDomainTypes: Option<seq<string>>,
    minSize: Option<int>,
    maxSize: Option<int>,
    allowedMimeTypes: Option<seq<string>>,
    allowedExtensions: Option<seq<string>>,
    allowedDirectories: Option<seq<string>>,
    pathPattern: Option<string>,
    filenamePattern: Option<string>,
    forbiddenExtensions: Option<seq<string>>,
    forbiddenDirectories: Option<seq<string>>,
    filenameMaxLength: Option<int>)

  /** The MIME lists of the presets document(), excel(), word(), ppt(),
      archive(), xml() and media(). */
  const DocumentMimeTypes := [
    "application/pdf",
    "application/msword",
    "application/vnd.openxmlformats-officedocument.wordprocessingml.document",
    "application/vnd.ms-excel",
    "application/vnd.openxmlformats-officedocument.spreadsheetml.sheet",
    "application/vnd.ms-powerpoint",
    "application/vnd.openxmlformats-officedocument.presentationml.presentation",
    "text/plain",
    "application/rtf"]
  const ExcelMimeTypes := ["application/vnd.ms-excel", "application/vnd.openxmlformats-officedocument.spreadsheetml.sheet"]
  const WordMimeTypes := ["application/msword", "application/vnd.openxmlformats-officedocument.wordprocessingml.document"]
  const PptMimeTypes := ["application/vnd.ms-powerpoint", "application/vnd.openxmlformats-officedocument.presentationml.presentation"]
  const ArchiveMimeTypes := [
    "application/zip",
    "application/x-rar-compressed",
    "application/vnd.rar",
    "application/x-7z-compressed",
    "application/gzip",
    "application/x-tar",
    "application/x-bzip2"]
  const XmlMimeTypes := ["application/xml", "text/xml"]
  const MediaMimeTypes := ["image/*", "video/*", "audio/*"]

  /** The roles a host can play, in the order detectDomainType tries them; an
      unconfigured CDN or upload host is None and matches nothing. */
  function Roles(d: Domains): seq<(string, Option<string>)> {
    [(DomainCdn, d.cdn), (DomainUpload, d.upload), (DomainOss, Some(d.oss)), (DomainOssInternal, Some(d.ossInternal))]
  }

  /** detectDomainType. */
  function DetectDomainType(d: Domains, url: Option<Url>): (r: Option<string>)
    ensures r.Some? ==> r.value in {DomainCdn, DomainUpload, DomainOss, DomainOssInternal}
    ensures url.None? ==> r.None?
  {
    match url
    case None => None
    case Some(u) =>
      if d.cdn.Some? && u.host == d.cdn.value then Some(DomainCdn)
      else if d.upload.Some? && u.host == d.upload.value then Some(DomainUpload)
      else if u.host == d.oss then Some(DomainOss)
      else if u.host == d.ossInternal then Some(DomainOssInternal)
      else None
  }

  /** detectDomainType reports the first role, in the order cdn, upload, oss,
      oss_internal, whose host is the URL's; no match gives None. */
  lemma DetectDomainTypeIsFirstMatch(d: Domains, u: Url, t: string)
    ensures DetectDomainType(d, Some(u)) == Some(t) <==>
      exists i :: 0 <= i < 4 && Roles(d)[i] == (t, Some(u.host)) &&
        forall j :: 0 <= j < i ==> Roles(d)[j].1 != Some(u.host)
    ensures DetectDomainType(d, Some(u)).None? <==> forall i :: 0 <= i < 4 ==> Roles(d)[i].1 != Some(u.host)
  {
    var roles, h := Roles(d), Some(u.host);
    var first :=
      if roles[0].1 == h then 0 else if roles[1].1 == h then 1
      else if roles[2].1 == h then 2 else if roles[3].1 == h then 3 else 4;
    assert forall j :: 0 <= j < first ==> roles[j].1 != h;
    if first < 4 {
      assert DetectDomainType(d, Some(u)) == Some(roles[first].0);
      forall i | 0 <= i < 4 && roles[i].1 == h && forall j :: 0 <= j < i ==> roles[j].1 != h
        ensures i == first
      {
      }
    }
  }

  /** With four distinct hosts configured, a URL on one of them is classified as
      exactly that role. */
  lemma DetectDomainTypeDistinctHosts(d: Domains, u: Url, i: nat)
    requires d.cdn.Some? && d.upload.Some?
    requires forall j, k :: 0 <= j < k < 4 ==> Roles(d)[j].1 != Roles(d)[k].1
    requires i < 4 && Roles(d)[i].1 == Some(u.host)
    ensures DetectDomainType(d, Some(u)) == Some(Roles(d)[i].0)
  {
    DetectDomainTypeIsFirstMatch(d, u, Roles(d)[i].0);
  }

  /** One entry of a MIME allow-list admits `mime`: an exact match, or an entry
      "type/" followed by a star, and a MIME type starting with "type/". */
  predicate MimeEntryAdmits(entry: string, mime: string) {
    mime == entry || (EndsWith(entry, "/*") && StartsWith(mime, entry[..|entry| - 1]))
  }

  /** matchMimeType: the scan with early return. */
  function MatchMimeType(mime: string, allowed: seq<string>): (r: bool)
    ensures r <==> exists i :: 0 <= i < |allowed| && MimeEntryAdmits(allowed[i], mime)
  {
    if allowed == [] then false
    else if mime == allowed[0] then true
    else if EndsWith(allowed[0], "/*") && StartsWith(mime, allowed[0][..|allowed[0]| - 1]) then true
    else
      var r := MatchMimeType(mime, allowed[1..]);
      assert forall i :: 1 <= i < |allowed| ==> allowed[i] == allowed[1..][i - 1];
      r
  }

  /** The path validate works on: the URL's path without leading '/'; "" when
      the value does not parse. */
  function ParsedPath(url: Option<Url>): (path: string)
    ensures path == [] || path[0] != '/'
  {
    var raw := if url.Some? then url.value.path else "";
    TrimLeftKeepsSuffix(raw, '/');
    TrimLeft(raw, '/')
  }

  /** The extension the extension lists are compared with: lower-cased. */
  function FileExtension(path: string): string {
    Lower(Extension(path))
  }

  /** A path lies in `dir` when it is `dir` or starts with `dir` + "/". */
  predicate InDirectory(path: string, dir: string) {
    StartsWith(path, dir + "/") || path == dir
  }

  /** The directory allow-list admits the path, scanning it in order: an entry
      "" admits every path. */
  predicate InAllowedDirectory(path: string, dirs: seq<string>) {
    dirs != [] && (dirs[0] == "" || InDirectory(path, dirs[0]) || InAllowedDirectory(path, dirs[1..]))
  }

  /** The directory deny-list rejects the path, scanning it in order: entries
      "" are skipped. */
  predicate InForbiddenDirectory(path: string, dirs: seq<string>) {
    dirs != [] && ((dirs[0] != "" && InDirectory(path, dirs[0])) || InForbiddenDirectory(path, dirs[1..]))
  }

  /** The allow-list admits the path exactly when some entry is "" or holds it. */
  lemma {:induction false} InAllowedDirectoryHasWitness(path: string, dirs: seq<string>)
    ensures InAllowedDirectory(path, dirs) <==>
      exists i :: 0 <= i < |dirs| && (dirs[i] == "" || InDirectory(path, dirs[i]))
  {
    if dirs != [] {
      InAllowedDirectoryHasWitness(path, dirs[1..]);
      assert forall i :: 1 <= i < |dirs| ==> dirs[i] == dirs[1..][i - 1];
    }
  }

  /** The deny-list rejects the path exactly when some non-empty entry holds it. */
  lemma {:induction false} InForbiddenDirectoryHasWitness(path: string, dirs: seq<string>)
    ensures InForbiddenDirectory(path, dirs) <==>
      exists i :: 0 <= i < |dirs| && dirs[i] != "" && InDirectory(path, dirs[i])
  {
    if dirs != [] {
      InForbiddenDirectoryHasWitness(path, dirs[1..]);
      assert forall i :: 1 <= i < |dirs| ==> dirs[i] == dirs[1..][i - 1];
    }
  }

  /** The metadata is fetched when existence is checked or a size or MIME
      policy is set. */
  predicate FetchNeeded(c: RuleConfig) {
    c.checkFileExists || c.minSize.Some? || c.maxSize.Some? || c.allowedMimeTypes.Some?
  }

  /** What the checks on the value and the disk reject on their own
      (invalid_url to domain_type_not_allowed). */
  predicate UrlViolates(reason: FailReason, c: RuleConfig, value: string, e: Env) {
    match reason
    case InvalidUrl => !e.isUrlString(value)
    case InvalidDisk => e.adapter.None?
    case DomainMismatch =>
      e.adapter.Some? &&
      if c.allowedDomainTypes.Some? then DetectDomainType(e.adapter.value, e.parse(value)).None?
      else !e.adapter.value.isBucketUrl(value)
    case DomainTypeNotAllowed =>
      e.adapter.Some? && c.allowedDomainTypes.Some? &&
      var t := DetectDomainType(e.adapter.value, e.parse(value));
      t.Some? && t.value !in c.allowedDomainTypes.value
    case _ => false
  }

  /** The parts of a parsed path the checks look at: the path, its lower-cased
      extension and its file name. */
  datatype PathInfo = PathInfo(path: string, extension: string, filename: string)

  function Info(path: string): PathInfo {
    PathInfo(path, FileExtension(path), Basename(path))
  }

  /** What the checks on the parsed path reject on their own (invalid_path to
      filename_too_long). */
  predicate PathViolates(reason: FailReason, c: RuleConfig, e: Env, info: PathInfo) {
    match reason
    case InvalidPath => IsEmpty(info.path)
    case ExtensionNotAllowed => c.allowedExtensions.Some? && info.extension !in c.allowedExtensions.value
    case ExtensionForbidden => c.forbiddenExtensions.Some? && info.extension in c.forbiddenExtensions.value
    case DirectoryNotAllowed => c.allowedDirectories.Some? && !InAllowedDirectory(info.path, c.allowedDirectories.value)
    case DirectoryForbidden => c.forbiddenDirectories.Some? && InForbiddenDirectory(info.path, c.forbiddenDirectories.value)
    case PathPatternMismatch => c.pathPattern.Some? && !e.pregMatch(c.pathPattern.value, info.path)
    case FilenamePatternMismatch => c.filenamePattern.Some? && !e.pregMatch(c.filenamePattern.value, info.filename)
    case FilenameTooLong => c.filenameMaxLength.Some? && |info.filename| > c.filenameMaxLength.value
    case _ => false
  }

  /** What the checks on the fetched metadata reject on their own
      (file_not_found to mime_type_not_allowed); nothing when no fetch is
      needed. */
  predicate FetchViolates(reason: FailReason, c: RuleConfig, fetched: Result<FileAttributes, Exception>) {
    FetchNeeded(c) &&
    match reason
    case FileNotFound => fetched == Err(OssException(404))
    case FileTooSmall =>
      fetched.Ok? && c.minSize.Some? && fetched.value.fileSize.Some? && fetched.value.fileSize.value < c.minSize.value
    case FileTooLarge =>
      fetched.Ok? && c.maxSize.Some? && fetched.value.fileSize.Some? && fetched.value.fileSize.value > c.maxSize.value
    case MimeTypeNotAllowed =>
      fetched.Ok? && c.allowedMimeTypes.Some? &&
      (fetched.value.mimeType.None? || !MatchMimeType(fetched.value.mimeType.value, c.allowedMimeTypes.value))
    case _ => false
  }

  /** What each check rejects, on its own, regardless of the checks before it. */
  predicate Violates(reason: FailReason, c: RuleConfig, value: string, e: Env) {
    var path := ParsedPath(e.parse(value));
    UrlViolates(reason, c, value, e) || PathViolates(reason, c, e, Info(path)) || FetchViolates(reason, c, e.meta(path))
  }

  /** Every check on the value and the disk ranked below `n` passes. */
  predicate UrlClearBelow(n: nat, c: RuleConfig, value: string, e: Env) {
    && (n > 0 ==> !UrlViolates(InvalidUrl, c, value, e))
    && (n > 1 ==> !UrlViolates(InvalidDisk, c, value, e))
    && (n > 2 ==> !UrlViolates(DomainMismatch, c, value, e))
    && (n > 3 ==> !UrlViolates(DomainTypeNotAllowed, c, value, e))
  }

  /** Every check on the path ranked below `n` passes. */
  predicate PathClearBelow(n: nat, c: RuleConfig, e: Env, info: PathInfo) {
    && (n > 4 ==> !PathViolates(InvalidPath, c, e, info))
    && (n > 5 ==> !PathViolates(ExtensionNotAllowed, c, e, info))
    && (n > 6 ==> !PathViolates(ExtensionForbidden, c, e, info))
    && (n > 7 ==> !PathViolates(DirectoryNotAllowed, c, e, info))
    && (n > 8 ==> !PathViolates(DirectoryForbidden, c, e, info))
    && (n > 9 ==> !PathViolates(PathPatternMismatch, c, e, info))
    && (n > 10 ==> !PathViolates(FilenamePatternMismatch, c, e, info))
    && (n > 11 ==> !PathViolates(FilenameTooLong, c, e, info))
  }

  /** Every check on the fetched metadata ranked below `n` passes. */
  predicate FetchClearBelow(n: nat, c: RuleConfig, fetched: Result<FileAttributes, Exception>) {
    && (n > 12 ==> !FetchViolates(FileNotFound, c, fetched))
    && (n > 13 ==> !FetchViolates(FileTooSmall, c, fetched))
    && (n > 14 ==> !FetchViolates(FileTooLarge, c, fetched))
    && (n > 15 ==> !FetchViolates(MimeTypeNotAllowed, c, fetched))
  }

  /** Every check ranked below `n` passes. */
  predicate ClearBelow(n: nat, c: RuleConfig, value: string, e: Env) {
    var path := ParsedPath(e.parse(value));
    UrlClearBelow(n, c, value, e) && PathClearBelow(n, c, e, Info(path)) && FetchClearBelow(n, c, e.meta(path))
  }

  /** Every check passes. */
  predicate Clean(c: RuleConfig, value: string, e: Env) {
    ClearBelow(16, c, value, e)
  }

  /** The state one validate call leaves behind: the failure key (None on
      success), the detected domain type, the parsed path, the fetched
      attributes, and the store error it let through, if any. */
  datatype Verdict = Verdict(
    reason: Option<FailReason>,
    detected: Option<string>,
    path: Option<string>,
    attributes: Option<FileAttributes>,
    raised: Option<Exception>)

  /** The domain check, with or without an allow-list of domain types. */
  function DomainFailure(c: RuleConfig, domains: Domains, value: string, detected: Option<string>): Option<FailReason> {
    if c.allowedDomainTypes.Some? then
      if detected.None? then Some(DomainMismatch)
      else if detected.value !in c.allowedDomainTypes.value then Some(DomainTypeNotAllowed)
      else None
    else if !domains.isBucketUrl(value) then Some(DomainMismatch)
    else None
  }

  /** The path checks, in order, up to the file name length. */
  function PathFailure(c: RuleConfig, e: Env, info: PathInfo): Option<FailReason> {
    if IsEmpty(info.path) then Some(InvalidPath)
    else if c.allowedExtensions.Some? && info.extension !in c.allowedExtensions.value then Some(ExtensionNotAllowed)
    else if c.forbiddenExtensions.Some? && info.extension in c.forbiddenExtensions.value then Some(ExtensionForbidden)
    else if c.allowedDirectories.Some? && !InAllowedDirectory(info.path, c.allowedDirectories.value) then Some(DirectoryNotAllowed)
    else if c.forbiddenDirectories.Some? && InForbiddenDirectory(info.path, c.forbiddenDirectories.value) then Some(DirectoryForbidden)
    else if c.pathPattern.Some? && !e.pregMatch(c.pathPattern.value, info.path) then Some(PathPatternMismatch)
    else if c.filenamePattern.Some? && !e.pregMatch(c.filenamePattern.value, info.filename) then Some(FilenamePatternMismatch)
    else if c.filenameMaxLength.Some? && |info.filename| > c.filenameMaxLength.value then Some(FilenameTooLong)
    else None
  }

  /** The checks on fetched attributes, in order: minimum size, maximum size
      (both skipped when the size is unknown), then the MIME allow-list. */
  function AttributesFailure(c: RuleConfig, attributes: FileAttributes): Option<FailReason> {
    var size := attributes.fileSize;
    if c.minSize.Some? && size.Some? && size.value < c.minSize.value then Some(FileTooSmall)
    else if c.maxSize.Some? && size.Some? && size.value > c.maxSize.value then Some(FileTooLarge)
    else if c.allowedMimeTypes.Some? &&
      (attributes.mimeType.None? || !MatchMimeType(attributes.mimeType.value, c.allowedMimeTypes.value))
    then Some(MimeTypeNotAllowed)
    else None
  }

  /** One validate call, as a function: stops at the first failing check. The
      path is recorded before anything is fetched and is the path fetched, and
      a store error let through comes with no failure and no attributes. */
  function Evaluate(c: RuleConfig, value: string, e: Env): (r: Verdict)
    ensures r.path.Some? ==> r.path.value == ParsedPath(e.parse(value))
    ensures r.attributes.Some? ==> r.path.Some? && FetchNeeded(c) && e.meta(r.path.value) == Ok(r.attributes.value)
    ensures r.raised.Some? ==> r.path.Some? && r.reason.None? && r.attributes.None?
  {
    if !e.isUrlString(value) then Verdict(Some(InvalidUrl), None, None, None, None)
    else if e.adapter.None? then Verdict(Some(InvalidDisk), None, None, None, None)
    else
      var detected := DetectDomainType(e.adapter.value, e.parse(value));
      var domainFailure := DomainFailure(c, e.adapter.value, value, detected);
      if domainFailure.Some? then Verdict(domainFailure, detected, None, None, None)
      else
        var path := ParsedPath(e.parse(value));
        var pathFailure := PathFailure(c, e, Info(path));
        if pathFailure.Some? then Verdict(pathFailure, detected, Some(path), None, None)
        else if !FetchNeeded(c) then Verdict(None, detected, Some(path), None, None)
        else
          match e.meta(path)
          case Err(x) =>
            if x == OssException(404) then Verdict(Some(FileNotFound), detected, Some(path), None, None)
            else Verdict(None, detected, Some(path), None, Some(x))
          case Ok(attributes) => Verdict(AttributesFailure(c, attributes), detected, Some(path), Some(attributes), None)
  }

  /** The reason Evaluate reports once the domain and path checks pass. */
  function FetchFailure(c: RuleConfig, fetched: Result<FileAttributes, Exception>): Option<FailReason> {
    if !FetchNeeded(c) then None
    else match fetched
      case Err(x) => if x == OssException(404) then Some(FileNotFound) else None
      case Ok(attributes) => AttributesFailure(c, attributes)
  }

  /** The domain check reports the first failing check on the value and the
      disk, given a valid URL and an OSS disk. */
  lemma DomainFailureIsFirst(c: RuleConfig, value: string, e: Env, reason: FailReason)
    requires e.isUrlString(value) && e.adapter.Some?
    ensures var detected := DetectDomainType(e.adapter.value, e.parse(value));
      DomainFailure(c, e.adapter.value, value, detected) == Some(reason) <==>
        UrlViolates(reason, c, value, e) && UrlClearBelow(Rank(reason), c, value, e)
    ensures var detected := DetectDomainType(e.adapter.value, e.parse(value));
      DomainFailure(c, e.adapter.value, value, detected).None? <==> UrlClearBelow(16, c, value, e)
  {
  }

  /** The path checks report the first failing one. */
  lemma PathFailureIsFirst(c: RuleConfig, e: Env, info: PathInfo, reason: FailReason)
    ensures PathFailure(c, e, info) == Some(reason) <==>
      PathViolates(reason, c, e, info) && PathClearBelow(Rank(reason), c, e, info)
    ensures PathFailure(c, e, info).None? <==> PathClearBelow(16, c, e, info)
  {
  }

  /** The fetch checks report the first failing one. */
  lemma FetchFailureIsFirst(c: RuleConfig, fetched: Result<FileAttributes, Exception>, reason: FailReason)
    ensures FetchFailure(c, fetched) == Some(reason) <==>
      FetchViolates(reason, c, fetched) && FetchClearBelow(Rank(reason), c, fetched)
    ensures FetchFailure(c, fetched).None? <==> FetchClearBelow(16, c, fetched)
  {
  }

  /** Once the domain and path checks pass, the reported reason is the fetch's. */
  lemma EvaluateAfterPathChecks(c: RuleConfig, value: string, e: Env)
    requires e.isUrlString(value) && e.adapter.Some?
    requires DomainFailure(c, e.adapter.value, value, DetectDomainType(e.adapter.value, e.parse(value))).None?
    requires PathFailure(c, e, Info(ParsedPath(e.parse(value)))).None?
    ensures Evaluate(c, value, e).reason == FetchFailure(c, e.meta(ParsedPath(e.parse(value))))
  {
  }

  /** A failing domain check ends validate with the detected type recorded. */
  lemma EvaluateDomainStage(c: RuleConfig, value: string, e: Env)
    requires e.isUrlString(value) && e.adapter.Some?
    requires DomainFailure(c, e.adapter.value, value, DetectDomainType(e.adapter.value, e.parse(value))).Some?
    ensures var detected := DetectDomainType(e.adapter.value, e.parse(value));
      Evaluate(c, value, e) == Verdict(DomainFailure(c, e.adapter.value, value, detected), detected, None, None, None)
  {
  }

  /** A failing path check ends validate with the detected type and the path
      recorded. */
  lemma EvaluatePathStage(c: RuleConfig, value: string, e: Env)
    requires e.isUrlString(value) && e.adapter.Some?
    requires DomainFailure(c, e.adapter.value, value, DetectDomainType(e.adapter.value, e.parse(value))).None?
    requires PathFailure(c, e, Info(ParsedPath(e.parse(value)))).Some?
    ensures var path := ParsedPath(e.parse(value));
      Evaluate(c, value, e) ==
        Verdict(PathFailure(c, e, Info(path)), DetectDomainType(e.adapter.value, e.parse(value)), Some(path), None, None)
  {
  }

  /** Before the fetch, validate records neither attributes nor a store error. */
  lemma EvaluateStopsBeforeFetch(c: RuleConfig, value: string, e: Env)
    requires !(e.isUrlString(value) && e.adapter.Some?) ||
      DomainFailure(c, e.adapter.value, value, DetectDomainType(e.adapter.value, e.parse(value))).Some? ||
      PathFailure(c, e, Info(ParsedPath(e.parse(value)))).Some?
    ensures Evaluate(c, value, e).attributes.None? && Evaluate(c, value, e).raised.None?
  {
  }

  /** Once the domain and path checks pass, the attributes and the store error
      are those of the fetch, when one is needed. */
  lemma EvaluateFetchStage(c: RuleConfig, value: string, e: Env)
    requires e.isUrlString(value) && e.adapter.Some?
    requires DomainFailure(c, e.adapter.value, value, DetectDomainType(e.adapter.value, e.parse(value))).None?
    requires PathFailure(c, e, Info(ParsedPath(e.parse(value)))).None?
    ensures var path := ParsedPath(e.parse(value));
      var fetched := e.meta(path);
      Evaluate(c, value, e) == Verdict(FetchFailure(c, fetched), DetectDomainType(e.adapter.value, e.parse(value)), Some(path),
        if FetchNeeded(c) && fetched.Ok? then Some(fetched.value) else None,
        if FetchNeeded(c) && fetched.Err? && fetched.error != OssException(404) then Some(fetched.error) else None)
  {
  }

  /** The checks before the fetch are those on the value, the disk and the path. */
  lemma ClearBeforeFetch(c: RuleConfig, value: string, e: Env)
    ensures ClearBelow(Rank(FileNotFound), c, value, e) <==>
      UrlClearBelow(16, c, value, e) && PathClearBelow(16, c, e, Info(ParsedPath(e.parse(value))))
    ensures UrlClearBelow(Rank(InvalidPath), c, value, e) <==> UrlClearBelow(16, c, value, e)
  {
  }

  /** Each check belongs to one stage: the value and disk, the path, or the
      fetched metadata. */
  lemma StageOf(reason: FailReason, c: RuleConfig, value: string, e: Env, info: PathInfo, fetched: Result<FileAttributes, Exception>)
    ensures Rank(reason) < 4 ==>
      && !PathViolates(reason, c, e, info) && !FetchViolates(reason, c, fetched)
      && PathClearBelow(Rank(reason), c, e, info) && FetchClearBelow(Rank(reason), c, fetched)
    ensures 4 <= Rank(reason) < 12 ==>
      && !UrlViolates(reason, c, value, e) && !FetchViolates(reason, c, fetched)
      && (UrlClearBelow(Rank(reason), c, value, e) <==> UrlClearBelow(16, c, value, e))
      && FetchClearBelow(Rank(reason), c, fetched)
    ensures 12 <= Rank(reason) ==>
      && !UrlViolates(reason, c, value, e) && !PathViolates(reason, c, e, info)
      && (UrlClearBelow(Rank(reason), c, value, e) <==> UrlClearBelow(16, c, value, e))
      && (PathClearBelow(Rank(reason), c, e, info) <==> PathClearBelow(16, c, e, info))
  {
  }

  /** validate fails with `reason` exactly when that check rejects the value
      and every check ordered before it passes. */
  lemma {:induction false} EvaluateReportsFirstViolation(c: RuleConfig, value: string, e: Env, reason: FailReason)
    ensures Evaluate(c, value, e).reason == Some(reason) <==>
      Violates(reason, c, value, e) && ClearBelow(Rank(reason), c, value, e)
  {
    var path := ParsedPath(e.parse(value));
    var fetched := e.meta(path);
    StageOf(reason, c, value, e, Info(path), fetched);
    if !e.isUrlString(value) {
      assert UrlViolates(InvalidUrl, c, value, e);
    } else if e.adapter.None? {
      assert UrlViolates(InvalidDisk, c, value, e);
    } else {
      DomainFailureIsFirst(c, value, e, reason);
      var detected := DetectDomainType(e.adapter.value, e.parse(value));
      if DomainFailure(c, e.adapter.value, value, detected).Some? {
        assert Evaluate(c, value, e).reason == DomainFailure(c, e.adapter.value, value, detected);
      } else {
        PathFailureIsFirst(c, e, Info(path), reason);
        if PathFailure(c, e, Info(path)).Some? {
          assert Evaluate(c, value, e).reason == PathFailure(c, e, Info(path));
        } else {
          FetchFailureIsFirst(c, fetched, reason);
          EvaluateAfterPathChecks(c, value, e);
        }
      }
    }
  }

  /** validate records no failure exactly when every check passes. */
  lemma {:induction false} EvaluatePassesIffClean(c: RuleConfig, value: string, e: Env)
    ensures Evaluate(c, value, e).reason.None? <==> Clean(c, value, e)
  {
    var path := ParsedPath(e.parse(value));
    if e.isUrlString(value) && e.adapter.Some? {
      DomainFailureIsFirst(c, value, e, InvalidUrl);
      var detected := DetectDomainType(e.adapter.value, e.parse(value));
      if DomainFailure(c, e.adapter.value, value, detected).None? {
        PathFailureIsFirst(c, e, Info(path), InvalidUrl);
        if PathFailure(c, e, Info(path)).None? {
          FetchFailureIsFirst(c, e.meta(path), InvalidUrl);
          EvaluateAfterPathChecks(c, value, e);
        }
      }
    }
  }

  /** validate neither records a failure nor lets an exception through exactly
      when every check passes and the fetch, if one is made, did not fail with
      a store error other than "not found". */
  lemma {:induction false} EvaluateSucceedsIffClean(c: RuleConfig, value: string, e: Env)
    ensures var verdict := Evaluate(c, value, e);
      var fetched := e.meta(ParsedPath(e.parse(value)));
      verdict.reason.None? && verdict.raised.None? <==>
        && Clean(c, value, e)
        && !(FetchNeeded(c) && fetched.Err? && fetched.error != OssException(404))
  {
    EvaluatePassesIffClean(c, value, e);
    EvaluateRaisesOnlyStoreErrors(c, value, e);
  }

  /** The failure key a reason string names, if any. */
  function FromKey(key: string): Option<FailReason> {
    if key == "invalid_url" then Some(InvalidUrl)
    else if key == "invalid_disk" then Some(InvalidDisk)
    else if key == "domain_mismatch" then Some(DomainMismatch)
    else if key == "domain_type_not_allowed" then Some(DomainTypeNotAllowed)
    else if key == "invalid_path" then Some(InvalidPath)
    else if key == "extension_not_allowed" then Some(ExtensionNotAllowed)
    else if key == "extension_forbidden" then Some(ExtensionForbidden)
    else if key == "directory_not_allowed" then Some(DirectoryNotAllowed)
    else if key == "directory_forbidden" then Some(DirectoryForbidden)
    else if key == "path_pattern_mismatch" then Some(PathPatternMismatch)
    else if key == "filename_pattern_mismatch" then Some(FilenamePatternMismatch)
    else if key == "filename_too_long" then Some(FilenameTooLong)
    else if key == "file_not_found" then Some(FileNotFound)
    else if key == "file_too_small" then Some(FileTooSmall)
    else if key == "file_too_large" then Some(FileTooLarge)
    else if key == "mime_type_not_allowed" then Some(MimeTypeNotAllowed)
    else None
  }

  /** Every key names its reason back, so no two reasons share a key. */
  lemma KeyRoundTrip(reason: FailReason, other: FailReason)
    ensures FromKey(Key(reason)) == Some(reason)
    ensures Key(reason) == Key(other) <==> reason == other
  {
    KeyDecodes(reason);
    KeyDecodes(other);
  }

  /** Each reason's key decodes back to it; split by rank so that each proof
      compares a few keys only. */
  lemma KeyDecodes(reason: FailReason)
    ensures FromKey(Key(reason)) == Some(reason)
  {
    if Rank(reason) < 4 {
      KeyDecodesRanks0To3(reason);
    } else if Rank(reason) < 8 {
      KeyDecodesRanks4To7(reason);
    } else if Rank(reason) < 10 {
      KeyDecodesRanks8To9(reason);
    } else if Rank(reason) < 12 {
      KeyDecodesRanks10To11(reason);
    } else if Rank(reason) < 14 {
      KeyDecodesRanks12To13(reason);
    } else {
      KeyDecodesRanks14To15(reason);
    }
  }

  lemma KeyDecodesRanks0To3(reason: FailReason)
    requires Rank(reason) < 4
    ensures FromKey(Key(reason)) == Some(reason)
  {
    if reason == InvalidUrl {
    } else if reason == InvalidDisk {
    } else if reason == DomainMismatch {
    } else {
      assert reason == DomainTypeNotAllowed;
    }
  }

  lemma KeyDecodesRanks4To7(reason: FailReason)
    requires 4 <= Rank(reason) < 8
    ensures FromKey(Key(reason)) == Some(reason)
  {
    if reason == InvalidPath {
    } else if reason == ExtensionNotAllowed {
    } else if reason == ExtensionForbidden {
    } else {
      assert reason == DirectoryNotAllowed;
    }
  }

  lemma KeyDecodesRanks8To9(reason: FailReason)
    requires 8 <= Rank(reason) < 10
    ensures FromKey(Key(reason)) == Some(reason)
  {
    if reason == DirectoryForbidden {
    } else {
      assert reason == PathPatternMismatch;
    }
  }

  lemma KeyDecodesRanks10To11(reason: FailReason)
    requires 10 <= Rank(reason) < 12
    ensures FromKey(Key(reason)) == Some(reason)
  {
    if reason == FilenamePatternMismatch {
    } else {
      assert reason == FilenameTooLong;
    }
  }

  lemma KeyDecodesRanks12To13(reason: FailReason)
    requires 12 <= Rank(reason) < 14
    ensures FromKey(Key(reason)) == Some(reason)
  {
    if reason == FileNotFound {
    } else {
      assert reason == FileTooSmall;
    }
  }

  lemma KeyDecodesRanks14To15(reason: FailReason)
    requires 14 <= Rank(reason)
    ensures FromKey(Key(reason)) == Some(reason)
  {
    if reason == FileTooLarge {
    } else {
      assert reason == MimeTypeNotAllowed;
    }
  }

  /** A store error other than "not found" is let through only once every
      check before the fetch has passed, and it is the fetch's own error. */
  lemma EvaluateRaisesOnlyStoreErrors(c: RuleConfig, value: string, e: Env)
    ensures var verdict := Evaluate(c, value, e);
      verdict.raised.Some? <==>
        && ClearBelow(Rank(FileNotFound), c, value, e) && FetchNeeded(c)
        && e.meta(ParsedPath(e.parse(value))).Err?
        && e.meta(ParsedPath(e.parse(value))).error != OssException(404)
    ensures var verdict := Evaluate(c, value, e);
      verdict.raised.Some? ==>
        verdict.reason.None? && e.meta(ParsedPath(e.parse(value))) == Err(verdict.raised.value)
  {
    var path := ParsedPath(e.parse(value));
    ClearBeforeFetch(c, value, e);
    if e.isUrlString(value) && e.adapter.Some? {
      DomainFailureIsFirst(c, value, e, InvalidUrl);
      var detected := DetectDomainType(e.adapter.value, e.parse(value));
      if DomainFailure(c, e.adapter.value, value, detected).None? {
        PathFailureIsFirst(c, e, Info(path), InvalidUrl);
        if PathFailure(c, e, Info(path)).None? {
          EvaluateFetchStage(c, value, e);
          FetchFailureIsFirst(c, e.meta(path), InvalidUrl);
          EvaluateAfterPathChecks(c, value, e);
          return;
        }
      }
    } else {
      assert !UrlClearBelow(16, c, value, e);
    }
    EvaluateStopsBeforeFetch(c, value, e);
  }

  /** What validate records beside the reason: the detected domain type as soon
      as the URL and the disk are accepted, even when a later check fails; the
      path once the domain is accepted; the attributes the fetch returned. */
  lemma EvaluateRecordsProgress(c: RuleConfig, value: string, e: Env)
    ensures var verdict := Evaluate(c, value, e);
      verdict.detected ==
        if e.isUrlString(value) && e.adapter.Some? then DetectDomainType(e.adapter.value, e.parse(value)) else None
    ensures var verdict := Evaluate(c, value, e);
      && (verdict.path.Some? <==> UrlClearBelow(Rank(InvalidPath), c, value, e))
      && (verdict.path.Some? ==> verdict.path.value == ParsedPath(e.parse(value)))
    ensures var verdict := Evaluate(c, value, e);
      && (verdict.attributes.Some? <==>
           ClearBelow(Rank(FileNotFound), c, value, e) && FetchNeeded(c) && e.meta(ParsedPath(e.parse(value))).Ok?)
      && (verdict.attributes.Some? ==> e.meta(ParsedPath(e.parse(value))) == Ok(verdict.attributes.value))
  {
    var path := ParsedPath(e.parse(value));
    ClearBeforeFetch(c, value, e);
    if e.isUrlString(value) && e.adapter.Some? {
      DomainFailureIsFirst(c, value, e, InvalidUrl);
      var detected := DetectDomainType(e.adapter.value, e.parse(value));
      if DomainFailure(c, e.adapter.value, value, detected).None? {
        PathFailureIsFirst(c, e, Info(path), InvalidUrl);
        if PathFailure(c, e, Info(path)).None? {
          EvaluateFetchStage(c, value, e);
          return;
        }
      }
    } else {
      assert !UrlClearBelow(16, c, value, e);
    }
    EvaluateStopsBeforeFetch(c, value, e);
  }

  /** Of two failing checks, the later one is never the one reported. */
  lemma EarlierViolationWins(c: RuleConfig, value: string, e: Env, first: FailReason, later: FailReason)
    requires Violates(first, c, value, e) && Violates(later, c, value, e)
    requires Rank(first) < Rank(later)
    ensures Evaluate(c, value, e).reason != Some(later)
  {
    EvaluateReportsFirstViolation(c, value, e, later);
  }

  /** A URL whose path is empty or "0" fails as invalid_path once its domain
      is accepted, whatever extension or directory policy is set. */
  lemma EmptyPathIsInvalid(c: RuleConfig, value: string, e: Env)
    requires UrlClearBelow(Rank(InvalidPath), c, value, e)
    requires IsEmpty(ParsedPath(e.parse(value)))
    ensures Evaluate(c, value, e).reason == Some(InvalidPath)
  {
    EvaluateReportsFirstViolation(c, value, e, InvalidPath);
  }

  /** Without an allow-list of domain types, acceptance is isBucketUrl; with
      one, an unrecognised host is a mismatch and a recognised one outside the
      list is not allowed. */
  lemma DomainPolicy(c: RuleConfig, value: string, e: Env)
    requires e.isUrlString(value) && e.adapter.Some?
    ensures var t := DetectDomainType(e.adapter.value, e.parse(value));
      var reason := Evaluate(c, value, e).reason;
      && (c.allowedDomainTypes.None? ==> (reason == Some(DomainMismatch) <==> !e.adapter.value.isBucketUrl(value)))
      && (c.allowedDomainTypes.Some? && t.None? ==> reason == Some(DomainMismatch))
      && (c.allowedDomainTypes.Some? && t.Some? ==>
            (reason == Some(DomainTypeNotAllowed) <==> t.value !in c.allowedDomainTypes.value))
  {
    var path := ParsedPath(e.parse(value));
    StageOf(DomainMismatch, c, value, e, Info(path), e.meta(path));
    StageOf(DomainTypeNotAllowed, c, value, e, Info(path), e.meta(path));
    EvaluateReportsFirstViolation(c, value, e, DomainMismatch);
    EvaluateReportsFirstViolation(c, value, e, DomainTypeNotAllowed);
  }

  /** When no existence, size or MIME policy is set the metadata is never
      consulted: the outcome is the same whatever the store would answer. */
  lemma NoFetchWithoutNeed(c: RuleConfig, value: string, e: Env, meta: string -> Result<FileAttributes, Exception>)
    requires !FetchNeeded(c)
    ensures Evaluate(c, value, e) == Evaluate(c, value, e.(meta := meta))
    ensures Evaluate(c, value, e).attributes.None? && Evaluate(c, value, e).raised.None?
  {
  }

  /** An object of unknown size passes both size checks; with no MIME list it
      then passes validation. */
  lemma UnknownSizePasses(c: RuleConfig, value: string, e: Env, attributes: FileAttributes)
    requires ClearBelow(Rank(FileNotFound), c, value, e) && FetchNeeded(c)
    requires e.meta(ParsedPath(e.parse(value))) == Ok(attributes)
    requires attributes.fileSize.None? && c.allowedMimeTypes.None?
    ensures Evaluate(c, value, e).reason.None?
    ensures Evaluate(c, value, e).attributes == Some(attributes)
  {
    var path := ParsedPath(e.parse(value));
    assert FetchClearBelow(16, c, e.meta(path));
    assert Clean(c, value, e);
    EvaluatePassesIffClean(c, value, e);
    EvaluateRecordsProgress(c, value, e);
  }

  /** A path lies in a directory exactly when the directory is a whole leading
      run of its components. */
  lemma InDirectoryIsComponentPrefix(path: string, dir: string)
    ensures InDirectory(path, dir) <==>
      path == dir || (|path| > |dir| && path[..|dir|] == dir && path[|dir|] == '/')
  {
    if |path| > |dir| && path[..|dir|] == dir && path[|dir|] == '/' {
      assert path[..|dir + "/"|] == dir + "/";
    }
  }

  /** "uploads" admits "uploads/a.jpg" but not "uploadsX/a.jpg". */
  lemma DirectoryBoundary()
    ensures InDirectory("uploads/a.jpg", "uploads")
    ensures !InDirectory("uploadsX/a.jpg", "uploads")
  {
    InDirectoryIsComponentPrefix("uploads/a.jpg", "uploads");
    InDirectoryIsComponentPrefix("uploadsX/a.jpg", "uploads");
  }

  /** An allow-list entry "" admits every path; a deny-list entry "" rejects
      none. */
  lemma EmptyDirectoryEntries(path: string, dirs: seq<string>)
    ensures "" in dirs ==> InAllowedDirectory(path, dirs)
    ensures InForbiddenDirectory(path, dirs + [""]) <==> InForbiddenDirectory(path, dirs)
    ensures !InForbiddenDirectory(path, [""])
  {
    var more := dirs + [""];
    InAllowedDirectoryHasWitness(path, dirs);
    InForbiddenDirectoryHasWitness(path, dirs);
    InForbiddenDirectoryHasWitness(path, more);
    InForbiddenDirectoryHasWitness(path, [""]);
    if "" in dirs {
      var i :| 0 <= i < |dirs| && dirs[i] == "";
    }
    if InForbiddenDirectory(path, more) {
      var i :| 0 <= i < |more| && more[i] != "" && InDirectory(path, more[i]);
      assert dirs[i] == more[i];
    }
    if InForbiddenDirectory(path, dirs) {
      var i :| 0 <= i < |dirs| && dirs[i] != "" && InDirectory(path, dirs[i]);
      assert more[i] == dirs[i];
    }
  }

  /** Extensions are compared lower-cased on both sides: a list set through
      the builder (which lower-cases it) admits a path when some entry equals
      its extension up to case. */
  lemma ExtensionIgnoresCase(path: string, list: seq<string>)
    ensures FileExtension(path) in LowerAll(list) <==>
      exists i :: 0 <= i < |list| && Lower(list[i]) == Lower(Extension(path))
  {
    var lowered := LowerAll(list);
    if FileExtension(path) in lowered {
      var i :| 0 <= i < |lowered| && lowered[i] == FileExtension(path);
      assert Lower(list[i]) == Lower(Extension(path));
    }
  }
}
