# laravel-alioss in Dafny

A model of the core of `hughcube/laravel-alioss`, a Laravel filesystem driver for
Alibaba Cloud OSS, with proofs about it. The model covers three parts:

- **The `OssUrlExists` validation rule.**
  - A fluent builder sets its policy:
    - the allowed domain types, and whether the object must exist;
    - size bounds and MIME allow-lists;
    - extension and directory allow- and deny-lists;
    - path and file-name patterns, and a maximum file-name length.
  - `validate` runs the checks in a fixed order and stops at the first failure. It records the failure key, the detected domain type, the parsed path and the fetched attributes.
  - Accessors read those results back.
- **The ACL translation.** `Acl` maps between the store's ACL values and the filesystem's public/private visibility.
- **The filesystem adapter.** `OssAdapter` forwards the filesystem operations to one bucket. It translates ACLs, resolves the `default` ACL through the configuration or the bucket, and signs URLs.

The project consists of eight files:

| file | contents |
|---|---|
| `wrappers.dfy` | `Option` and `Result` |
| `storage.dfy` | `FileAttributes` and the exceptions |
| `strings.dfy` | the PHP string functions the code relies on: `str_starts_with`, `str_ends_with`, `strtolower`, `ltrim`, `rtrim`, `trim`, and `pathinfo`'s basename, extension and dirname |
| `urls.dfy` | the URL and query operations of the HUrl library |
| `acl.dfy` | `Acl` |
| `adapter.dfy` | the bucket as an object, and `OssAdapter` as a class over it |
| `rule_checks.dfy` | the checks of `validate` as pure definitions (see below) |
| `oss_url_exists.dfy` | the rule as a class |

`rule_checks.dfy` defines:

- what each check rejects on its own (`Violates`);
- the order of the checks (`Rank`);
- `Evaluate`, the outcome of one `validate` call as a function of the policy and of what `validate` consults.

`oss_url_exists.dfy` holds the rule as a class:

- 33 setters, each of which overwrites its fields and returns the rule;
- a `Validate` method whose new state is `Evaluate` of the policy;
- the accessors.

The central theorem is `EvaluateReportsFirstViolation`. `validate` fails with a given key exactly when two things hold:

- that check rejects the value;
- every check ordered before it passes.

Together with `EvaluatePassesIffClean` and `EvaluateSucceedsIffClean`, it pins the outcome down completely in terms of the individual checks.

What `validate` consults from outside is bundled in an `Env` value:

- HUrl's `isUrlString` and `parse`;
- the disk's adapter (its CDN, upload and bucket hosts, and `isBucketUrl`), or none when the disk is not an OSS disk;
- `preg_match`;
- the metadata fetch.

The `$fail` callback is modelled as the list of reasons it received. A store error other than 404 is modelled as the `raised` out-parameter instead of a throw.

## Model

| member | source | states |
|---|---|---|
| Acl.AclMap | src/Acl.php:20-27 | the table's ACL keys are distinct and every value is public or private |
| Acl.ToAcl | src/Acl.php:29-37 | toAcl only ever answers public-read or private; public-read-write is shadowed by the entry before it |
| Acl.ToVisibility | src/Acl.php:39-47 | toVisibility only ever answers public or private |
| Acl.FirstAclFor | src/Acl.php:29-37 | the ACL of the first table entry whose visibility matches, and private when none does |
| Acl.FirstVisibilityFor | src/Acl.php:39-47 | the visibility of the first table entry whose ACL matches, and private when none does |
| Acl.ToAclOfVisibilities | src/Acl.php:20-37 | `public` becomes public-read (the first match, never public-read-write); `private` becomes private |
| Acl.ToAclDefaultsToPrivate | src/Acl.php:29-37 | any other visibility falls back to private |
| Acl.ToVisibilityOfAcls | src/Acl.php:20-47 | public-read and public-read-write read as public; private reads as private |
| Acl.ToVisibilityDefaultsToPrivate | src/Acl.php:39-47 | an ACL outside the table (`default` included) reads as private |
| Acl.VisibilityRoundTrip | src/Acl.php:20-47 | both visibilities survive toAcl followed by toVisibility |
| Acl.AclRoundTrip | src/Acl.php:20-47 | public-read and private survive toVisibility followed by toAcl; public-read-write comes back as public-read |
| Acl.TranslationsStayInTable | src/Acl.php:20-47 | both translations always land in the table |
| Adapter.Remaining | src/OssAdapter.php:112-115 | what `stream_get_contents` returns is the stream's data from its position on |
| Adapter.WriteThenRead | src/OssAdapter.php:104-123 | a write followed by a read of the same key gives the written bytes; no other key changes |
| Adapter.DeleteRemovesOnlyTheKey | src/OssAdapter.php:141-144 | after delete the key is gone and every other key is unchanged |
| Adapter.CopyKeepsSource | src/OssAdapter.php:219-228 | the destination holds the source's bytes; the source and every other key are unchanged |
| Adapter.MoveIsCopyThenDelete | src/OssAdapter.php:234-238 | after a move the source is gone and the destination holds its former bytes; other keys are unchanged |
| Adapter.WithSignature | src/OssAdapter.php:282-284 | the caller's scheme, host and path stay; every signer query pair is set; other pairs keep their values |
| Urls.WithQueryValue | src/OssAdapter.php:283 | withQueryValue sets one pair and leaves every other name's value alone |
| Urls.WithQueryPairs | src/OssAdapter.php:282-284 | after the loop, each name has the signer's value when the signer has one, else its former value |
| Adapter.OssAdapter.constructor | src/OssAdapter.php:39-42 | the adapter keeps the configured ACL and addresses the given bucket |
| Adapter.OssAdapter.GetDefaultAcl | src/OssAdapter.php:72-75 | the configured ACL when set, else the bucket's ACL |
| Adapter.OssAdapter.EffectiveAcl | src/OssAdapter.php:175-178 | the object ACL `default` resolves to the default ACL; any other ACL stands |
| Adapter.OssAdapter.FileExists | src/OssAdapter.php:88-91 | true exactly when the bucket holds the key |
| Adapter.OssAdapter.DirectoryExists | src/OssAdapter.php:96-99 | always true |
| Adapter.OssAdapter.Write | src/OssAdapter.php:104-107 | the bucket maps the key to the bytes, with the inherited ACL; nothing else changes |
| Adapter.OssAdapter.WriteStream | src/OssAdapter.php:112-115 | the same as writing what remains of the stream |
| Adapter.OssAdapter.Read | src/OssAdapter.php:120-123 | the stored bytes, or the store's 404 error for a missing key |
| Adapter.OssAdapter.ReadStream | src/OssAdapter.php:128-136 | a stream at position 0 whose remaining data is the stored bytes, or the 404 error |
| Adapter.OssAdapter.Delete | src/OssAdapter.php:141-144 | the key is removed and nothing else changes |
| Adapter.OssAdapter.DeleteDirectory | src/OssAdapter.php:149-152 | the bucket's objects and ACL are unchanged |
| Adapter.OssAdapter.CreateDirectory | src/OssAdapter.php:157-160 | an empty object is written under the path followed by `/` |
| Adapter.OssAdapter.SetVisibility | src/OssAdapter.php:166-169 | the object's ACL becomes toAcl of the visibility; a missing key fails and changes nothing |
| Adapter.OssAdapter.Visibility | src/OssAdapter.php:175-181 | the attributes carry toVisibility of the effective ACL; a missing key fails |
| Adapter.OssAdapter.SetVisibilityThenVisibility | tests/AliOssAdapterTest.php:187-201 | the ACL setVisibility stores for public or private is never `default`, and visibility reads back exactly what was set |
| Adapter.OssAdapter.SetThenGetVisibility | tests/AliOssAdapterTest.php:187-201 | setVisibility then visibility on an existing object succeeds and reports the visibility that was set |
| Adapter.OssAdapter.GetFileAttributes | src/OssAdapter.php:240-251 | size, modification time and content type of the stored object; 404 exactly for a missing key |
| Adapter.OssAdapter.MimeType | src/OssAdapter.php:186-189 | the same answer as getFileAttributes |
| Adapter.OssAdapter.LastModified | src/OssAdapter.php:194-197 | the same answer as getFileAttributes |
| Adapter.OssAdapter.FileSize | src/OssAdapter.php:202-205 | the same answer as getFileAttributes |
| Adapter.OssAdapter.ListContents | src/OssAdapter.php:210-213 | always fails with BadMethodCallException |
| Adapter.OssAdapter.Copy | src/OssAdapter.php:219-228 | the bucket becomes the copied map; a missing source fails and changes nothing |
| Adapter.OssAdapter.Move | src/OssAdapter.php:234-238 | copy then delete; a failed copy deletes nothing |
| Adapter.OssAdapter.SignUrl | src/OssAdapter.php:264-287 | a bare path returns the signer's URL; an absolute URL keeps its own scheme, host and path and takes on the signed query; when the signer's answer does not parse as a URL, an InvalidArgumentException results |
| Adapter.OssAdapter.Url | src/OssAdapter.php:256-259 | a successful result renders a URL with an empty query |
| Adapter.OssAdapter.UrlDropsSignature | src/OssAdapter.php:256-287 | url of an absolute URL is that URL without its query, whatever the signer answered |
| Strings.LowerChars | src/Rules/OssUrlExists.php:389-393 | strtolower maps each character on its own |
| Strings.LowerIdempotent | src/Rules/OssUrlExists.php:538-540 | lower-casing an already lower-cased extension changes nothing |
| Strings.LowerAll | src/Rules/OssUrlExists.php:389-393 | the builder's list holds each entry lower-cased, in order |
| Strings.TrimLeftKeepsSuffix | src/Rules/OssUrlExists.php:530 | ltrim keeps a suffix, drops only `/`, and stops at the first other character |
| Strings.TrimRightKeepsPrefix | src/Rules/OssUrlExists.php:842-861 | rtrim keeps a prefix, drops only `/`, and stops at the last other character |
| Strings.Trim | src/Rules/OssUrlExists.php:400-404 | the stored directory neither starts nor ends with `/` |
| Strings.TrimAll | src/Rules/OssUrlExists.php:411-415 | each stored directory is its entry trimmed of `/`, in order |
| Strings.BasenameHasNoSlash | src/Rules/OssUrlExists.php:601 | the file name holds no `/` |
| Strings.ExtensionOfBasename | src/Rules/OssUrlExists.php:538 | the extension holds neither `.` nor `/`, and is non-empty only when the file name has a `.` |
| Strings.DirnameIsParent | src/Rules/OssUrlExists.php:858-861 | the directory (pathinfo's dirname) is `""` (exactly for the empty path), `/`, `.` when no `/` precedes the base name, or a leading part of the path followed by `/`; `.` for a bare file name |
| Strings.DirnameFollowedBySeparator | src/Rules/OssUrlExists.php:858-861 | when a `/` precedes the base name, the directory is `/` or a leading part of the path followed by `/` |
| Strings.DirnameCutsAtLastSeparator | src/Rules/OssUrlExists.php:858-861 | the directory case by case: `""` for `""`, `/` for separators only, `.` when no `/` precedes the base name, otherwise `/` when only separators precede it and else the non-empty leading part, not ending in `/`, after which come only separators and the base name (so `a` for `a/b` and for `a//b`) |
| Strings.DirnameIsTheOnlyCut | src/Rules/OssUrlExists.php:858-861 | that description admits one directory only: any leading part meeting it is the directory, and when only separators precede the base name the directory is `/` |
| Strings.CutIsDirname | src/Rules/OssUrlExists.php:858-861 | a leading part not ending in `/`, followed only by separators and the base name, is the directory |
| RuleChecks.DetectDomainType | src/Rules/OssUrlExists.php:666-696 | the result is one of the four domain types, and none for an unparsable URL |
| RuleChecks.DetectDomainTypeIsFirstMatch | src/Rules/OssUrlExists.php:666-696 | the type of the first role (cdn, upload, oss, oss_internal) whose host is the URL's, and none exactly when no role matches |
| RuleChecks.DetectDomainTypeDistinctHosts | src/Rules/OssUrlExists.php:666-696 | with four distinct hosts, a URL on one of them gets exactly that role |
| RuleChecks.MatchMimeType | src/Rules/OssUrlExists.php:704-722 | true exactly when some entry equals the type, or ends in `/*` and its prefix up to the `/` starts the type |
| RuleChecks.ParsedPath | src/Rules/OssUrlExists.php:530 | the recorded path never starts with `/` |
| RuleChecks.InAllowedDirectoryHasWitness | src/Rules/OssUrlExists.php:557-575 | the allow-list admits a path exactly when some entry is `""` or holds the path |
| RuleChecks.InForbiddenDirectoryHasWitness | src/Rules/OssUrlExists.php:578-589 | the deny-list rejects a path exactly when some non-empty entry holds it |
| RuleChecks.InDirectoryIsComponentPrefix | src/Rules/OssUrlExists.php:565 | a path lies in a directory exactly when it is the directory or continues it with `/` |
| RuleChecks.DirectoryBoundary | src/Rules/OssUrlExists.php:565 | `uploads` admits `uploads/a.jpg` but not `uploadsX/a.jpg` |
| RuleChecks.EmptyDirectoryEntries | src/Rules/OssUrlExists.php:557-589 | an allow-list entry `""` admits every path; a deny-list entry `""` rejects none |
| RuleChecks.ExtensionIgnoresCase | src/Rules/OssUrlExists.php:538-545 | an extension passes a lower-cased list exactly when some entry equals it up to case |
| RuleChecks.DomainFailureIsFirst | src/Rules/OssUrlExists.php:505-527 | the domain check reports the first failing check on the value and disk, and none exactly when all of them pass |
| RuleChecks.PathFailureIsFirst | src/Rules/OssUrlExists.php:529-617 | the path checks report the first failing one, and none exactly when all of them pass |
| RuleChecks.FetchFailureIsFirst | src/Rules/OssUrlExists.php:619-660 | the fetch checks report the first failing one, and none exactly when all of them pass |
| RuleChecks.EvaluateAfterPathChecks | src/Rules/OssUrlExists.php:619-660 | once the domain and path checks pass, the reported reason is the fetch's |
| RuleChecks.EvaluateDomainStage | src/Rules/OssUrlExists.php:505-527 | a failing domain check ends validate with only the detected type recorded |
| RuleChecks.EvaluatePathStage | src/Rules/OssUrlExists.php:529-617 | a failing path check ends validate with the detected type and the path recorded |
| RuleChecks.EvaluateStopsBeforeFetch | src/Rules/OssUrlExists.php:483-617 | a failure before the fetch records no attributes and raises nothing |
| RuleChecks.EvaluateFetchStage | src/Rules/OssUrlExists.php:619-660 | after the path checks, the outcome is the fetch's: its reason, its attributes, and any store error other than 404 |
| RuleChecks.EvaluateReportsFirstViolation | src/Rules/OssUrlExists.php:483-661 | validate fails with a key exactly when that check rejects the value and every earlier check passes |
| RuleChecks.EvaluatePassesIffClean | src/Rules/OssUrlExists.php:483-661 | validate records no failure exactly when every check passes (a store error other than 404 may still escape then) |
| RuleChecks.EarlierViolationWins | src/Rules/OssUrlExists.php:483-661 | of two failing checks, the later one is never reported |
| RuleChecks.EvaluateRecordsProgress | src/Rules/OssUrlExists.php:483-661 | the detected type is recorded once URL and disk are accepted; the path once the domain is; the attributes exactly when fetched |
| RuleChecks.EvaluateSucceedsIffClean | src/Rules/OssUrlExists.php:483-661 | validate neither records a failure nor lets an exception through exactly when every check passes and the fetch, if made, did not fail with a store error other than 404 |
| RuleChecks.Evaluate | src/Rules/OssUrlExists.php:483-661 | the recorded path is the parsed path and the one fetched; attributes are present only after a fetch, and an escaping store error comes with no failure and no attributes |
| RuleChecks.EvaluateRaisesOnlyStoreErrors | src/Rules/OssUrlExists.php:619-633 | an exception escapes exactly when every earlier check passed and the fetch failed other than with 404; it is that error and no failure is recorded |
| RuleChecks.EmptyPathIsInvalid | src/Rules/OssUrlExists.php:529-535 | an empty path or `0` fails as invalid_path once the domain is accepted, whatever else is set |
| RuleChecks.DomainPolicy | src/Rules/OssUrlExists.php:505-527 | without a type list, domain_mismatch exactly when the URL is not the bucket's; with one, an unknown host is a mismatch, and a known one outside the list is not allowed |
| RuleChecks.NoFetchWithoutNeed | src/Rules/OssUrlExists.php:619-633 | with no existence, size or MIME policy, the store is never consulted |
| RuleChecks.UnknownSizePasses | src/Rules/OssUrlExists.php:635-650 | an object of unknown size passes both size checks, and with no MIME list it passes validation |
| RuleChecks.KeyRoundTrip | src/Rules/OssUrlExists.php:483-661 | every failure key names its reason back, so no two reasons share a key |
| Rules.OssUrlExists.constructor | src/Rules/OssUrlExists.php:106-109 | a new rule has the given disk, the default policy (existence checked, nothing else set) and no results |
| Rules.OssUrlExists.Make | src/Rules/OssUrlExists.php:114-117 | make returns a fresh rule with the default configuration and no recorded failure, path, attributes or domain type |
| Rules.OssUrlExists.CheckExists | src/Rules/OssUrlExists.php:122-126 | sets the existence check; returns the rule |
| Rules.OssUrlExists.DomainOnly | src/Rules/OssUrlExists.php:131-135 | clears the existence check, so the store is consulted only for a size or MIME policy |
| Rules.OssUrlExists.CdnDomain | src/Rules/OssUrlExists.php:140-144 | only cdn is allowed |
| Rules.OssUrlExists.UploadDomain | src/Rules/OssUrlExists.php:149-153 | only upload is allowed |
| Rules.OssUrlExists.OssDomain | src/Rules/OssUrlExists.php:158-164 | oss is allowed, plus oss_internal when asked |
| Rules.OssUrlExists.AllowedDomains | src/Rules/OssUrlExists.php:171-175 | the given types are allowed |
| Rules.OssUrlExists.AnyDomain | src/Rules/OssUrlExists.php:180-189 | all four known types are allowed |
| Rules.OssUrlExists.MinSize | src/Rules/OssUrlExists.php:196-200 | sets the minimum size |
| Rules.OssUrlExists.MaxSize | src/Rules/OssUrlExists.php:207-211 | sets the maximum size |
| Rules.OssUrlExists.SizeBetween | src/Rules/OssUrlExists.php:219-224 | sets both bounds |
| Rules.OssUrlExists.MimeTypes | src/Rules/OssUrlExists.php:231-235 | sets the MIME allow-list |
| Rules.OssUrlExists.Image | src/Rules/OssUrlExists.php:240-244 | MIME allow-list `image/*` |
| Rules.OssUrlExists.Video | src/Rules/OssUrlExists.php:249-253 | MIME allow-list `video/*` |
| Rules.OssUrlExists.Audio | src/Rules/OssUrlExists.php:258-262 | MIME allow-list `audio/*` |
| Rules.OssUrlExists.Document | src/Rules/OssUrlExists.php:267-281 | the nine document MIME types |
| Rules.OssUrlExists.Pdf | src/Rules/OssUrlExists.php:286-290 | MIME allow-list `application/pdf` |
| Rules.OssUrlExists.Excel | src/Rules/OssUrlExists.php:295-302 | the two spreadsheet MIME types |
| Rules.OssUrlExists.Word | src/Rules/OssUrlExists.php:307-314 | the two word-processing MIME types |
| Rules.OssUrlExists.Ppt | src/Rules/OssUrlExists.php:319-326 | the two presentation MIME types |
| Rules.OssUrlExists.Archive | src/Rules/OssUrlExists.php:331-343 | the seven archive MIME types |
| Rules.OssUrlExists.Text | src/Rules/OssUrlExists.php:348-352 | MIME allow-list `text/*` |
| Rules.OssUrlExists.Json | src/Rules/OssUrlExists.php:357-361 | MIME allow-list `application/json` |
| Rules.OssUrlExists.Xml | src/Rules/OssUrlExists.php:366-373 | the two XML MIME types |
| Rules.OssUrlExists.Media | src/Rules/OssUrlExists.php:378-382 | MIME allow-list of image, video and audio wildcards |
| Rules.OssUrlExists.Extensions | src/Rules/OssUrlExists.php:389-393 | the extension allow-list, lower-cased |
| Rules.OssUrlExists.Directory | src/Rules/OssUrlExists.php:400-404 | one allowed directory, trimmed of `/` |
| Rules.OssUrlExists.Directories | src/Rules/OssUrlExists.php:411-415 | the allowed directories, each trimmed of `/` |
| Rules.OssUrlExists.PathMatches | src/Rules/OssUrlExists.php:422-426 | sets the path pattern |
| Rules.OssUrlExists.FilenameMatches | src/Rules/OssUrlExists.php:433-437 | sets the file-name pattern |
| Rules.OssUrlExists.ExceptExtensions | src/Rules/OssUrlExists.php:444-448 | the extension deny-list, lower-cased |
| Rules.OssUrlExists.ExceptDirectory | src/Rules/OssUrlExists.php:455-459 | one forbidden directory, trimmed of `/` |
| Rules.OssUrlExists.ExceptDirectories | src/Rules/OssUrlExists.php:466-470 | the forbidden directories, each trimmed of `/` |
| Rules.OssUrlExists.FilenameMaxLength | src/Rules/OssUrlExists.php:477-481 | sets the maximum file-name length |
| Rules.OssUrlExists.Validate | src/Rules/OssUrlExists.php:483-661 | the four result fields and the raised error are Evaluate of the policy; the callback receives the recorded key once, or nothing on success |
| Rules.OssUrlExists.CheckDomain | src/Rules/OssUrlExists.php:505-527 | the domain check's result under the current policy |
| Rules.OssUrlExists.CheckPath | src/Rules/OssUrlExists.php:529-617 | the first failing path check under the current policy, or none |
| Rules.OssUrlExists.ScanAllowedDirectories | src/Rules/OssUrlExists.php:557-575 | the loop's flag is the allow-list's verdict |
| Rules.OssUrlExists.ScanForbiddenDirectories | src/Rules/OssUrlExists.php:578-589 | the loop's answer is the deny-list's verdict |
| Rules.OssUrlExists.FetchAttributes | src/Rules/OssUrlExists.php:619-633 | the fetch stage: the failure key, the fetched attributes, and a store error other than 404 |
| Rules.OssUrlExists.CheckAttributes | src/Rules/OssUrlExists.php:635-660 | the first failing check among minimum size, maximum size and MIME type |
| Rules.OssUrlExists.GetFailedReason | src/Rules/OssUrlExists.php:762-765 | present exactly when a failure was recorded; the key names that failure |
| Rules.OssUrlExists.GetFileAttributes | src/Rules/OssUrlExists.php:770-773 | the recorded attributes |
| Rules.OssUrlExists.GetFileSize | src/Rules/OssUrlExists.php:778-781 | absent when no attributes were fetched; otherwise exactly their size |
| Rules.OssUrlExists.GetMimeType | src/Rules/OssUrlExists.php:786-789 | absent when no attributes were fetched; otherwise exactly their MIME type |
| Rules.OssUrlExists.GetDetectedDomainType | src/Rules/OssUrlExists.php:794-797 | the recorded domain type |
| Rules.OssUrlExists.IsCdnDomain | src/Rules/OssUrlExists.php:802-805 | holds exactly when the detected domain type is `cdn`, and then it is none of the other three kinds |
| Rules.OssUrlExists.IsUploadDomain | src/Rules/OssUrlExists.php:810-813 | holds exactly when the detected domain type is `upload`, and then it is none of the other three kinds |
| Rules.OssUrlExists.IsOssDomain | src/Rules/OssUrlExists.php:818-821 | holds exactly when the detected domain type is `oss`, and then it is none of the other three kinds |
| Rules.OssUrlExists.IsOssInternalDomain | src/Rules/OssUrlExists.php:826-829 | holds exactly when the detected domain type is `oss_internal`, and then it is none of the other three kinds |
| Rules.OssUrlExists.GetPath | src/Rules/OssUrlExists.php:834-837 | the recorded path |
| Rules.OssUrlExists.GetFilename | src/Rules/OssUrlExists.php:842-845 | present exactly when a path was recorded; holds no `/` |
| Rules.OssUrlExists.GetExtension | src/Rules/OssUrlExists.php:850-853 | present exactly when a path was recorded; no `.` or `/`; lower-cased it is the extension that the checks compare |
| Rules.OssUrlExists.GetDirectory | src/Rules/OssUrlExists.php:858-861 | present exactly when a path was recorded; for that path, `""` exactly when it is empty, `/` for separators only, `.` when no `/` precedes the base name, `/` when only separators precede it, and otherwise the unique leading part not ending in `/` after which come only separators and the base name (a leading part followed by `/`) |

## Left out

- src/Action/UploadUrl.php, src/Action/Meta.php, src/AliOSS.php and src/ServiceProvider.php are not part of this model. They are the upload-URL and metadata actions, the facade and the service registration.
- getAdapter (src/Rules/OssUrlExists.php:724-733) is not modelled. It resolves the disk through Laravel's filesystem manager; `Env.adapter` stands for its result.
- message (src/Rules/OssUrlExists.php:735-757) is not modelled. The message texts and their translation are left out; the callback log carries the failure reason instead of the text.
- validate's `$attribute` parameter is not modelled. It only feeds the messages.
- Non-string values are not modelled. `validate` accepts `mixed`, but the model takes a string and leaves the URL test to `Env.isUrlString`.
- HUrl's `isUrlString` and `parse`, and `preg_match`, are not modelled. They are inputs, since the libraries are not part of this model. A parsed URL keeps scheme, host, path and query only.
- The adapter's host configuration is not modelled. `isBucketUrl`, `getCdnDomain`, `getUploadDomain` and `getOssOriginalDomain` live outside the core, so their answers are the fields of `Domains`.
- `mb_strlen` is modelled as the number of characters of the file name. No byte encoding is modelled.
- `strtolower` is modelled with ASCII letters only, as in PHP 8. `pathinfo` follows PHP's algorithm for `/`-separated paths; locale-dependent multibyte handling is not modelled.
- The OSS SDK client is not modelled. The lazy client, credentials, endpoint, proxy, getBucket and getBucketAcl are replaced by a `Bucket` object holding the objects of one bucket and its ACL; each SDK call becomes an update of that map.
- Network failures of write, delete and copy are not modelled.
- The content type and modification time of a write are a `Stamp` parameter, and the time of a copy is a `now` parameter. The SDK settles these itself.
- The `options` write configuration is not modelled; it is passed through to the SDK unchanged.
- Copy gives the destination the inherited ACL, and setVisibility fails with 404 on a missing key. Both follow the store's behaviour.
- putUrl, putFile and download are not modelled. They perform HTTP and local-file I/O.
- The SDK's URL signer is not modelled. It is a `Signer` parameter, and signUrl's `options` configuration is left out. Text that HUrl::instance cannot parse becomes InvalidArgumentException.
- Adapter.OssAdapter.Url: its contract only says the result is a URL without a query. The exact value for an absolute URL is stated by `UrlDropsSignature`, which assumes that rendering and parsing a URL are inverse.
- The behaviour of the tests is not modelled where it disagrees with the source. The model follows the source in three places:
  - tests/OssAdapterTest.php expects deleteDirectory to throw BadMethodCallException, but the source returns without doing anything.
  - tests/Rules/OssUrlExistsTest.php calls `domainOnly()` and `existsOnly()` statically. The source has only an instance method `domainOnly` and no `existsOnly`.
  - tests/Rules/OssUrlExistsTest.php:165-166 also accepts the failure reason `oss_error` when the network fails. The source has no such reason: a store error other than 404 is rethrown, as `EvaluateRaisesOnlyStoreErrors` states.
- `CheckDomain`, `CheckPath`, `FetchAttributes`, `CheckAttributes` and the two directory scans are not separate methods in the source. They are the consecutive blocks of `validate`, split out so that each can be proved against its own part of `Evaluate`.
