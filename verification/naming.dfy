/** The branch gate and the artifact naming layer of master/package.py:
    which branches are packaged, the file name `make binary-dist` leaves
    on the worker, the canonical name it is uploaded under, and the
    object-store keys and download URL derived from them. */
module Naming {
  import opened Text

  /** What the `is_mac` and `is_windows` predicates report for the build;
      a build that is neither takes the Linux naming. */
  datatype Os = Mac | Windows | Linux

  /** The build properties the naming functions read. `os` stands for the
      platform predicates; every other field is the property of the same
      name (`artifact_filename` is the raw output of
      `make print-JULIA_BINARYDIST_FILENAME`). */
  datatype BuildProps = BuildProps(
    os: Os,
    artifactFilename: string,
    osPkgExt: string,
    version: string,
    shortcommit: string,
    tarArch: string,
    osName: string,
    bits: string,
    upArch: string,
    majmin: string,
    uploadFilename: string)

  // ------------------------------------------------------------ branch gate

  /** `should_build_branch`: an allow-list plus the `release-` prefix. */
  function ShouldBuildBranch(branch: string): (build: bool)
    ensures build <==> branch == "master" || branch == "sf/buildbot_testing" || StartsWith(branch, "release-")
  {
    if branch in ["master", "sf/buildbot_testing"] then true
    else StartsWith(branch, "release-")
  }

  lemma ShouldBuildBranchExamples()
    ensures ShouldBuildBranch("master") && ShouldBuildBranch("sf/buildbot_testing")
    ensures ShouldBuildBranch("release-1.2") && ShouldBuildBranch("release-")
    ensures !ShouldBuildBranch("feature/x") && !ShouldBuildBranch("release") && !ShouldBuildBranch("")
  {
    assert "release-" <= "release-1.2";
    assert !("release-" <= "feature/x") by { assert "feature/x"[0] != 'r'; }
  }

  // ------------------------------------------------------- local file name

  /** The prefix `make print-JULIA_BINARYDIST_FILENAME` puts before the name. */
  const Marker: string := "JULIA_BINARYDIST_FILENAME="

  /** The test at package.py:58: the first 26 characters are the marker and
      something follows them. */
  predicate HasMarkerPayload(artifact: string) {
    Take(artifact, 26) == Marker && |artifact| > 26
  }

  /** The naming used before the distribution names were made consistent. */
  function LegacyLocalFilename(p: BuildProps): string {
    match p.os
    case Mac => "contrib/mac/app/Julia-" + p.version + "-" + p.shortcommit + "." + p.osPkgExt
    case Windows => "julia-" + p.version + "-" + p.tarArch + "." + p.osPkgExt
    case Linux =>
      // package.py:68 compares a bare name `tar_arch`, not props["tar_arch"];
      // the comparison is modelled against the tar_arch property.
      if p.tarArch == "armv7l" then "julia-" + p.shortcommit + "-Linux-arm." + p.osPkgExt
      else "julia-" + p.shortcommit + "-Linux-" + p.tarArch + "." + p.osPkgExt
  }

  /** `gen_local_filename`: the marker's payload followed directly (no dot)
      by the package extension, or else the legacy per-OS name. Either way
      the name ends with the extension and is longer than it. */
  function GenLocalFilename(p: BuildProps): (name: string)
    ensures EndsWith(name, p.osPkgExt)
    ensures |name| > |p.osPkgExt|
  {
    var artifact := Strip(p.artifactFilename);
    if HasMarkerPayload(artifact) then Drop(artifact, 26) + p.osPkgExt
    else
      var legacy := LegacyLocalFilename(p);
      assert legacy[|legacy| - |p.osPkgExt|..] == p.osPkgExt;
      legacy
  }

  /** The marker test is a prefix test on the 26-character marker. */
  lemma MarkerTestIsPrefix(artifact: string)
    ensures Take(artifact, 26) == Marker <==> StartsWith(artifact, Marker)
  {
    assert |Marker| == 26;
  }

  /** The marker branch: when the stripped output starts with the marker
      and has more after it, the name is everything after the 26 marker
      characters followed by the extension. */
  lemma LocalFilenameMarkerBranch(p: BuildProps)
    requires StartsWith(Strip(p.artifactFilename), Marker) && |Strip(p.artifactFilename)| > 26
    ensures GenLocalFilename(p) == Strip(p.artifactFilename)[26..] + p.osPkgExt
  {
    MarkerTestIsPrefix(Strip(p.artifactFilename));
  }

  /** Output of the form `JULIA_BINARYDIST_FILENAME=<payload>`, with any
      surrounding whitespace, names the payload plus the extension. */
  lemma LocalFilenameFromMarker(p: BuildProps, before: string, payload: string, after: string)
    requires AllSpace(before) && AllSpace(after)
    requires payload != [] && !IsSpace(payload[0]) && !IsSpace(payload[|payload| - 1])
    requires p.artifactFilename == before + Marker + payload + after
    ensures GenLocalFilename(p) == payload + p.osPkgExt
  {
    var core := Marker + payload;
    assert core[0] == 'J' && core[|core| - 1] == payload[|payload| - 1];
    assert p.artifactFilename == before + core + after;
    StripPadded(before, core, after);
    assert |Marker| == 26 && core[..26] == Marker && core[26..] == payload;
  }

  /** Example: the payload and the extension are joined without a dot. */
  lemma LocalFilenameMarkerExample(p: BuildProps, payload: string)
    requires payload == "julia-1.2.3"
    requires p.artifactFilename == Marker + payload && p.osPkgExt == "tar.gz"
    ensures GenLocalFilename(p) == "julia-1.2.3" + "tar.gz"
  {
    assert payload[0] == 'j' && payload[|payload| - 1] == '3';
    assert p.artifactFilename == [] + Marker + payload + [];
    LocalFilenameFromMarker(p, [], payload, []);
  }

  /** No marker, or a marker with nothing after it: the legacy name. */
  lemma LocalFilenameFallback(p: BuildProps)
    requires !StartsWith(Strip(p.artifactFilename), Marker) || Strip(p.artifactFilename) == Marker
    ensures GenLocalFilename(p) == LegacyLocalFilename(p)
    ensures GenLocalFilename(p) != []
  {
    MarkerTestIsPrefix(Strip(p.artifactFilename));
  }

  /** A Linux build for armv7l without a marker is named `...-Linux-arm.<ext>`. */
  lemma LocalFilenameArmRemap(p: BuildProps)
    requires p.os == Linux && p.tarArch == "armv7l"
    requires !StartsWith(Strip(p.artifactFilename), Marker)
    ensures GenLocalFilename(p) == "julia-" + p.shortcommit + "-Linux-arm." + p.osPkgExt
  {
    LocalFilenameFallback(p);
  }

  // ------------------------------------------------------ upload file name

  /** `gen_upload_filename`: `julia-<shortcommit>-<os_name><bits>.<ext>`. */
  function GenUploadFilename(p: BuildProps): (name: string)
    ensures StartsWith(name, "julia-")
    ensures EndsWith(name, "." + p.osPkgExt)
  {
    var name := "julia-" + p.shortcommit + "-" + p.osName + p.bits + "." + p.osPkgExt;
    assert name == "julia-" + (p.shortcommit + "-" + p.osName + p.bits) + ("." + p.osPkgExt);
    name
  }

  /** The upload name reads only shortcommit, os_name, bits and os_pkg_ext:
      whichever local naming fired, the same name is uploaded. */
  lemma UploadFilenameIgnoresLocalNaming(p: BuildProps, q: BuildProps)
    requires p.shortcommit == q.shortcommit && p.osName == q.osName
    requires p.bits == q.bits && p.osPkgExt == q.osPkgExt
    ensures GenUploadFilename(p) == GenUploadFilename(q)
  {
  }

  // ------------------------------------------------------ storage keys

  /** The key prefix shared by every upload. */
  const BinRoot: string := "julianightlies/test/bin/"

  /** `gen_upload_path`: `julianightlies/test/bin/<os>/<up_arch>/<majmin>/<upload_filename>`,
      where `<os>` is what `get_os_name` reports, passed in as `hostOs`. */
  function GenUploadPath(p: BuildProps, hostOs: string): (path: string)
    ensures StartsWith(path, BinRoot)
    ensures EndsWith(path, "/" + p.uploadFilename)
  {
    var tail := hostOs + "/" + p.upArch + "/" + p.majmin + "/" + p.uploadFilename;
    assert tail == (hostOs + "/" + p.upArch + "/" + p.majmin) + ("/" + p.uploadFilename);
    BinRoot + tail
  }

  /** The `julia-` to `julia-latest-` rewrite of package.py:88-89; a name
      without the `julia-` prefix is kept as it is. */
  function LatestName(fname: string): (name: string)
    ensures StartsWith(fname, "julia-") ==> name == "julia-latest-" + fname[6..]
    ensures !StartsWith(fname, "julia-") ==> name == fname
  {
    if Take(fname, 6) == "julia-" then "julia-latest-" + Drop(fname, 6) else fname
  }

  /** `gen_latest_upload_path`: as the upload path, without the majmin
      segment and with the file name rewritten. */
  function GenLatestUploadPath(p: BuildProps, hostOs: string): (path: string)
    ensures StartsWith(path, BinRoot)
    ensures EndsWith(path, "/" + LatestName(p.uploadFilename))
  {
    var name := LatestName(p.uploadFilename);
    var tail := hostOs + "/" + p.upArch + "/" + name;
    assert tail == (hostOs + "/" + p.upArch) + ("/" + name);
    BinRoot + tail
  }

  /** `gen_download_url`: the S3 endpoint followed by the upload path. */
  function GenDownloadUrl(p: BuildProps, hostOs: string): (url: string)
    ensures |url| >= 25 && url[..25] == "https://s3.amazonaws.com/" && url[25..] == GenUploadPath(p, hostOs)
  {
    "https://s3.amazonaws.com" + "/" + GenUploadPath(p, hostOs)
  }

  // ------------------------------------------------------ properties of the keys

  /** A name with the `julia-` prefix gets `julia-latest-` in its place. */
  lemma LatestNameOfPrefixed(rest: string)
    ensures LatestName("julia-" + rest) == "julia-latest-" + rest
  {
    var f := "julia-" + rest;
    assert f[..6] == "julia-" && f[6..] == rest;
  }

  /** Regrouping a chain of seven concatenations after its first part. */
  lemma RegroupAfterFirst(a: string, b: string, c: string, d: string, e: string, f: string, g: string)
    ensures a + b + c + d + e + f + g == a + (b + c + d + e + f + g)
  {
  }

  /** For every name `gen_upload_filename` produces, the latest rewrite fires. */
  lemma LatestNameOfUploadFilename(p: BuildProps)
    ensures LatestName(GenUploadFilename(p))
         == "julia-latest-" + (p.shortcommit + "-" + p.osName + p.bits + "." + p.osPkgExt)
  {
    RegroupAfterFirst("julia-", p.shortcommit, "-", p.osName, p.bits, ".", p.osPkgExt);
    LatestNameOfPrefixed(p.shortcommit + "-" + p.osName + p.bits + "." + p.osPkgExt);
  }

  /** Example: the rewrite keeps the commit and inserts `latest-`. */
  lemma LatestNameExample(fname: string, rest: string)
    requires rest == "abc1234567-linux64.tar.gz" && fname == "julia-" + rest
    ensures LatestName(fname) == "julia-latest-abc1234567-linux64.tar.gz"
  {
    LatestNameOfPrefixed(rest);
  }

  /** Two different upload names never share a latest name. */
  lemma {:induction false} LatestNameInjective(f: string, g: string)
    requires f != g
    ensures LatestName(f) != LatestName(g)
  {
    var lf, lg := LatestName(f), LatestName(g);
    if StartsWith(f, "julia-") && StartsWith(g, "julia-") {
      assert f == f[..6] + f[6..] && g == g[..6] + g[6..];
      assert lf[13..] == f[6..] && lg[13..] == g[6..];
    } else if StartsWith(f, "julia-") {
      assert lf[..6] == "julia-";
      assert lg == g;
    } else if StartsWith(g, "julia-") {
      assert lg[..6] == "julia-";
      assert lf == f;
    }
  }

  predicate SlashFree(s: string) {
    '/' !in s
  }

  /** The rewritten name holds a slash only if the original did. */
  lemma LatestNameSlashFree(fname: string)
    requires SlashFree(fname)
    ensures SlashFree(LatestName(fname))
  {
    if StartsWith(fname, "julia-") {
      var rest := fname[6..];
      assert forall k :: 0 <= k < |rest| ==> rest[k] == fname[k + 6];
      assert forall k :: 0 <= k < 13 ==> "julia-latest-"[k] != '/';
    }
  }

  /** A slash-free name is a single segment. */
  lemma SingleSegment(name: string)
    requires SlashFree(name)
    ensures Split(name, '/') == [name]
  {
    SplitPrefix(name, [], '/');
    assert name + [] == name;
  }

  /** After the fixed prefix, the key splits on `/` into the OS, the
      architecture, majmin and the file name, when none of them holds a slash. */
  lemma {:induction false} UploadPathSegments(p: BuildProps, hostOs: string)
    requires SlashFree(hostOs) && SlashFree(p.upArch) && SlashFree(p.majmin) && SlashFree(p.uploadFilename)
    ensures var path := GenUploadPath(p, hostOs);
      Split(path[|BinRoot|..], '/') == [hostOs, p.upArch, p.majmin, p.uploadFilename]
  {
    var tail := hostOs + "/" + p.upArch + "/" + p.majmin + "/" + p.uploadFilename;
    assert GenUploadPath(p, hostOs)[|BinRoot|..] == tail;
    SingleSegment(hostOs);
    SplitSnoc(hostOs, p.upArch, '/');
    SplitSnoc(hostOs + "/" + p.upArch, p.majmin, '/');
    SplitSnoc(hostOs + "/" + p.upArch + "/" + p.majmin, p.uploadFilename, '/');
  }

  /** The latest key has no majmin segment. */
  lemma {:induction false} LatestUploadPathSegments(p: BuildProps, hostOs: string)
    requires SlashFree(hostOs) && SlashFree(p.upArch) && SlashFree(p.uploadFilename)
    ensures var path := GenLatestUploadPath(p, hostOs);
      Split(path[|BinRoot|..], '/') == [hostOs, p.upArch, LatestName(p.uploadFilename)]
  {
    var name := LatestName(p.uploadFilename);
    LatestNameSlashFree(p.uploadFilename);
    var tail := hostOs + "/" + p.upArch + "/" + name;
    assert GenLatestUploadPath(p, hostOs)[|BinRoot|..] == tail;
    SingleSegment(hostOs);
    SplitSnoc(hostOs, p.upArch, '/');
    SplitSnoc(hostOs + "/" + p.upArch, name, '/');
  }

  /** The versioned key and the latest key are never the same: after the
      fixed prefix one has four segments and the other three. */
  lemma UploadAndLatestPathsDiffer(p: BuildProps, hostOs: string)
    requires SlashFree(hostOs) && SlashFree(p.upArch) && SlashFree(p.majmin) && SlashFree(p.uploadFilename)
    ensures GenUploadPath(p, hostOs) != GenLatestUploadPath(p, hostOs)
  {
    UploadPathSegments(p, hostOs);
    LatestUploadPathSegments(p, hostOs);
  }

  /** Builds that differ in OS, architecture, majmin or upload name get
      different keys, so they can share the bucket without collision. */
  lemma UploadPathsDistinct(p: BuildProps, hostOs: string, q: BuildProps, hostOs': string)
    requires SlashFree(hostOs) && SlashFree(p.upArch) && SlashFree(p.majmin) && SlashFree(p.uploadFilename)
    requires SlashFree(hostOs') && SlashFree(q.upArch) && SlashFree(q.majmin) && SlashFree(q.uploadFilename)
    requires hostOs != hostOs' || p.upArch != q.upArch || p.majmin != q.majmin || p.uploadFilename != q.uploadFilename
    ensures GenUploadPath(p, hostOs) != GenUploadPath(q, hostOs')
  {
    UploadPathSegments(p, hostOs);
    UploadPathSegments(q, hostOs');
  }

  /** The download URL names the upload key: different keys, different URLs. */
  lemma DownloadUrlsDistinct(p: BuildProps, hostOs: string, q: BuildProps, hostOs': string)
    requires GenUploadPath(p, hostOs) != GenUploadPath(q, hostOs')
    ensures GenDownloadUrl(p, hostOs) != GenDownloadUrl(q, hostOs')
  {
    var u, v := GenDownloadUrl(p, hostOs), GenDownloadUrl(q, hostOs');
    assert u[25..] != v[25..];
  }
}
