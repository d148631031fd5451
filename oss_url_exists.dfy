/** The OssUrlExists validation rule as an object: a fluent builder whose
    setters overwrite one policy field each and return the rule itself, a
    validate method that records its outcome in four result fields, and the
    accessors that read them back. */
module Rules {
  import opened Wrappers
  import opened Strings
  import opened Storage
  import opened RuleChecks

  /** The policy of a freshly made rule: existence is checked, nothing else is
      restricted. */
  const DefaultConfig := RuleConfig(true, None, None, None, None, None, None, None, None, None, None, None)

  class OssUrlExists {
    /** The disk name; None selects the disk "oss". */
    var disk: Option<string>
    var checkFileExists: bool
    var allowedDomainTypes: Option<seq<string>>
    var minSize: Option<int>
    var maxSize: Option<int>
    var allowedMimeTypes: Option<seq<string>>
    var allowedExtensions: Option<seq<string>>
    var allowedDirectories: Option<seq<string>>
    var pathPattern: Option<string>
    var filenamePattern: Option<string>
    var forbiddenExtensions: Option<seq<string>>
    var forbiddenDirectories: Option<seq<string>>
    var filenameMaxLength: Option<int>
    /** The results of the last validate call. */
    var parsedPath: Option<string>
    var failedReason: Option<FailReason>
    var fileAttributes: Option<FileAttributes>
    var detectedDomainType: Option<string>

    /** The policy the builder has set. */
    function Config(): RuleConfig
      reads this`checkFileExists, this`allowedDomainTypes, this`minSize, this`maxSize, this`allowedMimeTypes
      reads this`allowedExtensions, this`allowedDirectories, this`pathPattern, this`filenamePattern
      reads this`forbiddenExtensions, this`forbiddenDirectories, this`filenameMaxLength
    {
      RuleConfig(checkFileExists, allowedDomainTypes, minSize, maxSize, allowedMimeTypes, allowedExtensions,
        allowedDirectories, pathPattern, filenamePattern, forbiddenExtensions, forbiddenDirectories, filenameMaxLength)
    }

    constructor(disk: Option<string> := None)
      ensures this.disk == disk && Config() == DefaultConfig
      ensures parsedPath.None? && failedReason.None? && fileAttributes.None? && detectedDomainType.None?
    {
      this.disk := disk;
      checkFileExists := true;
      allowedDomainTypes, minSize, maxSize, allowedMimeTypes := None, None, None, None;
      allowedExtensions, allowedDirectories, pathPattern, filenamePattern := None, None, None, None;
      forbiddenExtensions, forbiddenDirectories, filenameMaxLength := None, None, None;
      parsedPath, failedReason, fileAttributes, detectedDomainType := None, None, None, None;
    }

    /** make(): a new rule on the given disk. */
    static method Make(disk: Option<string> := None) returns (rule: OssUrlExists)
      ensures fresh(rule) && rule.disk == disk && rule.Config() == DefaultConfig
      ensures rule.failedReason.None? && rule.parsedPath.None?
      ensures rule.fileAttributes.None? && rule.detectedDomainType.None?
    {
      rule := new OssUrlExists(disk);
    }

    method CheckExists(check: bool := true) returns (self: OssUrlExists)
      modifies this`checkFileExists
      ensures self == this && checkFileExists == check
    {
      checkFileExists := check;
      self := this;
    }

    /** Only the domain is checked: the object is not looked up unless a size
        or MIME policy asks for it. */
    method DomainOnly() returns (self: OssUrlExists)
      modifies this`checkFileExists
      ensures self == this && !checkFileExists
      ensures FetchNeeded(Config()) <==> minSize.Some? || maxSize.Some? || allowedMimeTypes.Some?
    {
      checkFileExists := false;
      self := this;
    }

    method CdnDomain() returns (self: OssUrlExists)
      modifies this`allowedDomainTypes
      ensures self == this && allowedDomainTypes == Some([DomainCdn])
    {
      allowedDomainTypes := Some([DomainCdn]);
      self := this;
    }

    method UploadDomain() returns (self: OssUrlExists)
      modifies this`allowedDomainTypes
      ensures self == this && allowedDomainTypes == Some([DomainUpload])
    {
      allowedDomainTypes := Some([DomainUpload]);
      self := this;
    }

    method OssDomain(includeInternal: bool := false) returns (self: OssUrlExists)
      modifies this`allowedDomainTypes
      ensures self == this
      ensures allowedDomainTypes == Some(if includeInternal then [DomainOss, DomainOssInternal] else [DomainOss])
    {
      allowedDomainTypes := Some(if includeInternal then [DomainOss, DomainOssInternal] else [DomainOss]);
      self := this;
    }

    method AllowedDomains(types: seq<string>) returns (self: OssUrlExists)
      modifies this`allowedDomainTypes
      ensures self == this && allowedDomainTypes == Some(types)
    {
      allowedDomainTypes := Some(types);
      self := this;
    }

    /** Every domain type is allowed, but the host must still be one of the
        four known ones. */
    method AnyDomain() returns (self: OssUrlExists)
      modifies this`allowedDomainTypes
      ensures self == this
      ensures allowedDomainTypes == Some([DomainCdn, DomainUpload, DomainOss, DomainOssInternal])
    {
      allowedDomainTypes := Some([DomainCdn, DomainUpload, DomainOss, DomainOssInternal]);
      self := this;
    }

    method MinSize(bytes: int) returns (self: OssUrlExists)
      modifies this`minSize
      ensures self == this && minSize == Some(bytes)
    {
      minSize := Some(bytes);
      self := this;
    }

    method MaxSize(bytes: int) returns (self: OssUrlExists)
      modifies this`maxSize
      ensures self == this && maxSize == Some(bytes)
    {
      maxSize := Some(bytes);
      self := this;
    }

    method SizeBetween(min: int, max: int) returns (self: OssUrlExists)
      modifies this`minSize, this`maxSize
      ensures self == this && minSize == Some(min) && maxSize == Some(max)
    {
      minSize, maxSize := Some(min), Some(max);
      self := this;
    }

    method MimeTypes(mimeTypes: seq<string>) returns (self: OssUrlExists)
      modifies this`allowedMimeTypes
      ensures self == this && allowedMimeTypes == Some(mimeTypes)
    {
      allowedMimeTypes := Some(mimeTypes);
      self := this;
    }

    method Image() returns (self: OssUrlExists)
      modifies this`allowedMimeTypes
      ensures self == this && allowedMimeTypes == Some(["image/*"])
    {
      allowedMimeTypes := Some(["image/*"]);
      self := this;
    }

    method Video() returns (self: OssUrlExists)
      modifies this`allowedMimeTypes
      ensures self == this && allowedMimeTypes == Some(["video/*"])
    {
      allowedMimeTypes := Some(["video/*"]);
      self := this;
    }

    method Audio() returns (self: OssUrlExists)
      modifies this`allowedMimeTypes
      ensures self == this && allowedMimeTypes == Some(["audio/*"])
    {
      allowedMimeTypes := Some(["audio/*"]);
      self := this;
    }

    method Document() returns (self: OssUrlExists)
      modifies this`allowedMimeTypes
      ensures self == this && allowedMimeTypes == Some(DocumentMimeTypes)
    {
      allowedMimeTypes := Some(DocumentMimeTypes);
      self := this;
    }

    method Pdf() returns (self: OssUrlExists)
      modifies this`allowedMimeTypes
      ensures self == this && allowedMimeTypes == Some(["application/pdf"])
    {
      allowedMimeTypes := Some(["application/pdf"]);
      self := this;
    }

    method Excel() returns (self: OssUrlExists)
      modifies this`allowedMimeTypes
      ensures self == this && allowedMimeTypes == Some(ExcelMimeTypes)
    {
      allowedMimeTypes := Some(ExcelMimeTypes);
      self := this;
    }

    method Word() returns (self: OssUrlExists)
      modifies this`allowedMimeTypes
      ensures self == this && allowedMimeTypes == Some(WordMimeTypes)
    {
      allowedMimeTypes := Some(WordMimeTypes);
      self := this;
    }

    method Ppt() returns (self: OssUrlExists)
      modifies this`allowedMimeTypes
      ensures self == this && allowedMimeTypes == Some(PptMimeTypes)
    {
      allowedMimeTypes := Some(PptMimeTypes);
      self := this;
    }

    method Archive() returns (self: OssUrlExists)
      modifies this`allowedMimeTypes
      ensures self == this && allowedMimeTypes == Some(ArchiveMimeTypes)
    {
      allowedMimeTypes := Some(ArchiveMimeTypes);
      self := this;
    }

    method Text() returns (self: OssUrlExists)
      modifies this`allowedMimeTypes
      ensures self == this && allowedMimeTypes == Some(["text/*"])
    {
      allowedMimeTypes := Some(["text/*"]);
      self := this;
    }

    method Json() returns (self: OssUrlExists)
      modifies this`allowedMimeTypes
      ensures self == this && allowedMimeTypes == Some(["application/json"])
    {
      allowedMimeTypes := Some(["application/json"]);
      self := this;
    }

    method Xml() returns (self: OssUrlExists)
      modifies this`allowedMimeTypes
      ensures self == this && allowedMimeTypes == Some(XmlMimeTypes)
    {
      allowedMimeTypes := Some(XmlMimeTypes);
      self := this;
    }

    method Media() returns (self: OssUrlExists)
      modifies this`allowedMimeTypes
      ensures self == this && allowedMimeTypes == Some(MediaMimeTypes)
    {
      allowedMimeTypes := Some(MediaMimeTypes);
      self := this;
    }

    /** The allow-list of extensions, stored lower-cased. */
    method Extensions(extensions: seq<string>) returns (self: OssUrlExists)
      modifies this`allowedExtensions
      ensures self == this && allowedExtensions == Some(LowerAll(extensions))
    {
      allowedExtensions := Some(LowerAll(extensions));
      self := this;
    }

    /** One allowed directory, stored without leading or trailing '/'. */
    method Directory(directory: string) returns (self: OssUrlExists)
      modifies this`allowedDirectories
      ensures self == this && allowedDirectories == Some([Trim(directory, '/')])
    {
      allowedDirectories := Some([Trim(directory, '/')]);
      self := this;
    }

    method Directories(directories: seq<string>) returns (self: OssUrlExists)
      modifies this`allowedDirectories
      ensures self == this && allowedDirectories == Some(TrimAll(directories, '/'))
    {
      allowedDirectories := Some(TrimAll(directories, '/'));
      self := this;
    }

    method PathMatches(pattern: string) returns (self: OssUrlExists)
      modifies this`pathPattern
      ensures self == this && pathPattern == Some(pattern)
    {
      pathPattern := Some(pattern);
      self := this;
    }

    method FilenameMatches(pattern: string) returns (self: OssUrlExists)
      modifies this`filenamePattern
      ensures self == this && filenamePattern == Some(pattern)
    {
      filenamePattern := Some(pattern);
      self := this;
    }

    /** The deny-list of extensions, stored lower-cased. */
    method ExceptExtensions(extensions: seq<string>) returns (self: OssUrlExists)
      modifies this`forbiddenExtensions
      ensures self == this && forbiddenExtensions == Some(LowerAll(extensions))
    {
      forbiddenExtensions := Some(LowerAll(extensions));
      self := this;
    }

    method ExceptDirectory(directory: string) returns (self: OssUrlExists)
      modifies this`forbiddenDirectories
      ensures self == this && forbiddenDirectories == Some([Trim(directory, '/')])
    {
      forbiddenDirectories := Some([Trim(directory, '/')]);
      self := this;
    }

    method ExceptDirectories(directories: seq<string>) returns (self: OssUrlExists)
      modifies this`forbiddenDirectories
      ensures self == this && forbiddenDirectories == Some(TrimAll(directories, '/'))
    {
      forbiddenDirectories := Some(TrimAll(directories, '/'));
      self := this;
    }

    method FilenameMaxLength(length: int) returns (self: OssUrlExists)
      modifies this`filenameMaxLength
      ensures self == this && filenameMaxLength == Some(length)
    {
      filenameMaxLength := Some(length);
      self := this;
    }

    /** validate: resets the results, then runs the checks in order and stops
        at the first failure, recording its key and reporting it once through
        the failure callback (the returned log). A store error other than "not
        found" is raised instead. */
    method Validate(value: string, env: Env) returns (failCalls: seq<FailReason>, raised: Option<Exception>)
      modifies this`failedReason, this`fileAttributes, this`detectedDomainType, this`parsedPath
      ensures var verdict := Evaluate(old(Config()), value, env);
        && failedReason == verdict.reason
        && detectedDomainType == verdict.detected
        && parsedPath == verdict.path
        && fileAttributes == verdict.attributes
        && raised == verdict.raised
      ensures failCalls == if failedReason.Some? then [failedReason.value] else []
    {
      ghost var c := Config();
      failedReason, fileAttributes, detectedDomainType, parsedPath := None, None, None, None;
      failCalls, raised := [], None;

      if !env.isUrlString(value) {
        failedReason := Some(InvalidUrl);
        failCalls := failCalls + [InvalidUrl];
        return;
      }

      if env.adapter.None? {
        failedReason := Some(InvalidDisk);
        failCalls := failCalls + [InvalidDisk];
        return;
      }
      var adapter := env.adapter.value;

      detectedDomainType := DetectDomainType(adapter, env.parse(value));
      var domainFailure := CheckDomain(adapter, value, detectedDomainType);
      if domainFailure.Some? {
        failedReason := domainFailure;
        failCalls := failCalls + [domainFailure.value];
        EvaluateDomainStage(c, value, env);
        return;
      }

      var url := env.parse(value);
      var path := ParsedPath(url);
      parsedPath := Some(path);
      var pathFailure := CheckPath(path, env);
      if pathFailure.Some? {
        failedReason := pathFailure;
        failCalls := failCalls + [pathFailure.value];
        EvaluatePathStage(c, value, env);
        return;
      }

      EvaluateFetchStage(c, value, env);
      var attributes, fetchFailure, fetchRaised := FetchAttributes(path, env);
      fileAttributes, raised, failedReason := attributes, fetchRaised, fetchFailure;
      if fetchFailure.Some? {
        failCalls := failCalls + [fetchFailure.value];
      }
    }

    /** The last stage of validate: when a size or MIME policy or the existence
        check is set, fetch the metadata; a 404 from the store is a missing file,
        any other store error propagates, and fetched attributes go through the
        attribute checks. */
    method FetchAttributes(path: string, env: Env)
      returns (attributes: Option<FileAttributes>, failure: Option<FailReason>, raised: Option<Exception>)
      ensures failure == FetchFailure(Config(), env.meta(path))
      ensures attributes == if FetchNeeded(Config()) && env.meta(path).Ok? then Some(env.meta(path).value) else None
      ensures raised ==
        if FetchNeeded(Config()) && env.meta(path).Err? && env.meta(path).error != OssException(404)
        then Some(env.meta(path).error) else None
    {
      attributes, failure, raised := None, None, None;
      if checkFileExists || minSize.Some? || maxSize.Some? || allowedMimeTypes.Some? {
        match env.meta(path)
        case Ok(fetched) =>
          attributes := Some(fetched);
          failure := CheckAttributes(fetched);
        case Err(x) =>
          if x == OssException(404) {
            failure := Some(FileNotFound);
          } else {
            raised := Some(x);
          }
      }
    }

    /** The checks of validate on the fetched attributes, in order: minimum size,
        maximum size, MIME type. A size the store did not report passes both size
        checks. */
    method CheckAttributes(attributes: FileAttributes) returns (failure: Option<FailReason>)
      ensures failure == AttributesFailure(Config(), attributes)
    {
      var fileSize := attributes.fileSize;
      if minSize.Some? && fileSize.Some? && fileSize.value < minSize.value {
        return Some(FileTooSmall);
      }
      if maxSize.Some? && fileSize.Some? && fileSize.value > maxSize.value {
        return Some(FileTooLarge);
      }
      if allowedMimeTypes.Some? {
        var mimeType := attributes.mimeType;
        if mimeType.None? || !MatchMimeType(mimeType.value, allowedMimeTypes.value) {
          return Some(MimeTypeNotAllowed);
        }
      }
      return None;
    }

    /** The domain check of validate: with a list of allowed domain types the
        detected role must be one of them; without one the URL must be on the
        bucket. */
    method CheckDomain(domains: Domains, value: string, detected: Option<string>) returns (failure: Option<FailReason>)
      ensures failure == DomainFailure(Config(), domains, value, detected)
    {
      if allowedDomainTypes.Some? {
        if detected.None? {
          return Some(DomainMismatch);
        }
        if detected.value !in allowedDomainTypes.value {
          return Some(DomainTypeNotAllowed);
        }
      } else {
        if !domains.isBucketUrl(value) {
          return Some(DomainMismatch);
        }
      }
      return None;
    }

    /** The checks of validate on the parsed path, in order, from the empty
        path to the file name length; None when all pass. */
    method CheckPath(path: string, env: Env) returns (failure: Option<FailReason>)
      ensures failure == PathFailure(Config(), env, Info(path))
    {
      if IsEmpty(path) {
        return Some(InvalidPath);
      }

      var extension := Lower(Extension(path));
      if allowedExtensions.Some? {
        if extension !in allowedExtensions.value {
          return Some(ExtensionNotAllowed);
        }
      }

      if forbiddenExtensions.Some? {
        if extension in forbiddenExtensions.value {
          return Some(ExtensionForbidden);
        }
      }

      if allowedDirectories.Some? {
        var inAllowedDir := ScanAllowedDirectories(path, allowedDirectories.value);
        if !inAllowedDir {
          return Some(DirectoryNotAllowed);
        }
      }

      if forbiddenDirectories.Some? {
        var inForbiddenDir := ScanForbiddenDirectories(path, forbiddenDirectories.value);
        if inForbiddenDir {
          return Some(DirectoryForbidden);
        }
      }

      if pathPattern.Some? {
        if !env.pregMatch(pathPattern.value, path) {
          return Some(PathPatternMismatch);
        }
      }

      var filename := Basename(path);
      if filenamePattern.Some? {
        if !env.pregMatch(filenamePattern.value, filename) {
          return Some(FilenamePatternMismatch);
        }
      }

      if filenameMaxLength.Some? {
        if |filename| > filenameMaxLength.value {
          return Some(FilenameTooLong);
        }
      }
      return None;
    }

    /** The allow-list loop of validate: stops at an entry "" or at the first
        directory holding the path. */
    static method ScanAllowedDirectories(path: string, dirs: seq<string>) returns (inAllowedDir: bool)
      ensures inAllowedDir == InAllowedDirectory(path, dirs)
    {
      inAllowedDir := false;
      var i := 0;
      while i < |dirs|
        invariant 0 <= i <= |dirs|
        invariant !inAllowedDir
        invariant InAllowedDirectory(path, dirs) == InAllowedDirectory(path, dirs[i..])
      {
        if dirs[i] == "" {
          inAllowedDir := true;
          break;
        }
        if StartsWith(path, dirs[i] + "/") || path == dirs[i] {
          inAllowedDir := true;
          break;
        }
        assert dirs[i..][1..] == dirs[i + 1..];
        i := i + 1;
      }
    }

    /** The deny-list loop of validate: skips entries "" and stops at the first
        directory holding the path. */
    static method ScanForbiddenDirectories(path: string, dirs: seq<string>) returns (inForbiddenDir: bool)
      ensures inForbiddenDir == InForbiddenDirectory(path, dirs)
    {
      var i := 0;
      while i < |dirs|
        invariant 0 <= i <= |dirs|
        invariant InForbiddenDirectory(path, dirs) == InForbiddenDirectory(path, dirs[i..])
      {
        if dirs[i] == "" {
          assert dirs[i..][1..] == dirs[i + 1..];
          i := i + 1;
          continue;
        }
        if StartsWith(path, dirs[i] + "/") || path == dirs[i] {
          return true;
        }
        assert dirs[i..][1..] == dirs[i + 1..];
        i := i + 1;
      }
      return false;
    }

    /** getFailedReason: the key of the last failure. */
    function GetFailedReason(): (r: Option<string>)
      reads this
      ensures r.Some? <==> failedReason.Some?
      ensures r.Some? ==> FromKey(r.value) == failedReason
    {
      if failedReason.Some? then
        KeyRoundTrip(failedReason.value, failedReason.value);
        Some(Key(failedReason.value))
      else None
    }

    function GetFileAttributes(): (r: Option<FileAttributes>)
      reads this
      ensures r == fileAttributes
    {
      fileAttributes
    }

    /** getFileSize: the size of the fetched object, when known. */
    function GetFileSize(): (r: Option<int>)
      reads this
      ensures fileAttributes.Some? ==> r == fileAttributes.value.fileSize
      ensures fileAttributes.None? ==> r.None?
    {
      if fileAttributes.Some? then fileAttributes.value.fileSize else None
    }

    /** getMimeType: the MIME type of the fetched object, when known. */
    function GetMimeType(): (r: Option<string>)
      reads this
      ensures fileAttributes.Some? ==> r == fileAttributes.value.mimeType
      ensures fileAttributes.None? ==> r.None?
    {
      if fileAttributes.Some? then fileAttributes.value.mimeType else None
    }

    function GetDetectedDomainType(): (r: Option<string>)
      reads this
      ensures r == detectedDomainType
    {
      detectedDomainType
    }

    /** isCdnDomain: the last validated URL was on the CDN domain; then on no other kind. */
    predicate IsCdnDomain(): (b: bool)
      reads this
      ensures b <==> GetDetectedDomainType() == Some(DomainCdn)
      ensures b ==>
        detectedDomainType.value != DomainUpload && detectedDomainType.value != DomainOss
        && detectedDomainType.value != DomainOssInternal
    {
      detectedDomainType == Some(DomainCdn)
    }

    /** isUploadDomain: the last validated URL was on the upload domain; then on no other kind. */
    predicate IsUploadDomain(): (b: bool)
      reads this
      ensures b <==> GetDetectedDomainType() == Some(DomainUpload)
      ensures b ==>
        detectedDomainType.value != DomainCdn && detectedDomainType.value != DomainOss
        && detectedDomainType.value != DomainOssInternal
    {
      detectedDomainType == Some(DomainUpload)
    }

    /** isOssDomain: the last validated URL was on the bucket's OSS domain; then on no other kind. */
    predicate IsOssDomain(): (b: bool)
      reads this
      ensures b <==> GetDetectedDomainType() == Some(DomainOss)
      ensures b ==>
        detectedDomainType.value != DomainCdn && detectedDomainType.value != DomainUpload
        && detectedDomainType.value != DomainOssInternal
    {
      detectedDomainType == Some(DomainOss)
    }

    /** isOssInternalDomain: the last validated URL was on the internal OSS domain; then on no other kind. */
    predicate IsOssInternalDomain(): (b: bool)
      reads this
      ensures b <==> GetDetectedDomainType() == Some(DomainOssInternal)
      ensures b ==>
        detectedDomainType.value != DomainCdn && detectedDomainType.value != DomainUpload
        && detectedDomainType.value != DomainOss
    {
      detectedDomainType == Some(DomainOssInternal)
    }

    function GetPath(): (r: Option<string>)
      reads this
      ensures r == parsedPath
    {
      parsedPath
    }

    /** getFilename: the last component of the parsed path. */
    function GetFilename(): (r: Option<string>)
      reads this
      ensures r.Some? <==> parsedPath.Some?
      ensures r.Some? ==> '/' !in r.value
    {
      if parsedPath.Some? then
        BasenameHasNoSlash(parsedPath.value);
        Some(Basename(parsedPath.value))
      else None
    }

    /** getExtension: as written in the path, not lower-cased; the extension
        checks compare its lower-cased form. */
    function GetExtension(): (r: Option<string>)
      reads this
      ensures r.Some? <==> parsedPath.Some?
      ensures r.Some? ==> '/' !in r.value && '.' !in r.value && Lower(r.value) == FileExtension(parsedPath.value)
    {
      if parsedPath.Some? then
        ExtensionOfBasename(parsedPath.value);
        Some(Extension(parsedPath.value))
      else None
    }

    /** getDirectory: the parent of the parsed path, "." for a bare name and ""
        for the empty path that invalid_path leaves behind. */
    function GetDirectory(): (r: Option<string>)
      reads this
      ensures r.Some? <==> parsedPath.Some?
      ensures r.Some? ==> (r.value == "" <==> parsedPath.value == "")
      ensures r.Some? && parsedPath.value != "" && TrimRight(parsedPath.value, '/') == "" ==> r.value == "/"
      ensures r.Some? && TrimRight(parsedPath.value, '/') != "" && '/' !in TrimRight(parsedPath.value, '/') ==>
        r.value == "."
      ensures r.Some? && '/' in TrimRight(parsedPath.value, '/') ==>
        if TrimLeft(TrimRight(parsedPath.value, '/'), '/') == Basename(parsedPath.value) then r.value == "/"
        else IsLastSeparatorCut(parsedPath.value, r.value) && StartsWith(parsedPath.value, r.value + "/")
    {
      if parsedPath.Some? then
        DirnameIsParent(parsedPath.value);
        DirnameCutsAtLastSeparator(parsedPath.value);
        DirnameIsTheOnlyCut(parsedPath.value, Dirname(parsedPath.value));
        Some(Dirname(parsedPath.value))
      else None
    }
  }
}
