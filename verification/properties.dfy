/** The build's property bag and `munge_artifact_filename`, the one step of
    master/package.py that writes properties itself: it computes the local
    and the upload file name from the bag and stores both back into it.
    Property values are strings; `str.format(**props)` raises KeyError on a
    property the template names but the bag lacks, modelled as `None`. */
module Properties {
  import opened Wrappers
  import opened Text
  import opened Naming

  /** A property's value, or the empty string when it is not set. Only
      read where the property is known to be set. */
  function Get(m: map<string, string>, key: string): string {
    if key in m then m[key] else ""
  }

  /** The dictionary the naming functions format from, with the platform
      predicates folded into `os`. */
  function View(m: map<string, string>, os: Os): BuildProps {
    BuildProps(
      os,
      Get(m, "artifact_filename"),
      Get(m, "os_pkg_ext"),
      Get(m, "version"),
      Get(m, "shortcommit"),
      Get(m, "tar_arch"),
      Get(m, "os_name"),
      Get(m, "bits"),
      Get(m, "up_arch"),
      Get(m, "majmin"),
      Get(m, "upload_filename"))
  }

  /** The properties the template chosen by `gen_local_filename` names,
      given the raw `artifact_filename` value that chooses it. */
  function LocalKeys(artifact: string, os: Os): (keys: set<string>)
    ensures "os_pkg_ext" in keys
  {
    if HasMarkerPayload(Strip(artifact)) then {"os_pkg_ext"}
    else match os
      case Mac => {"version", "shortcommit", "os_pkg_ext"}
      case Windows => {"version", "tar_arch", "os_pkg_ext"}
      case Linux => {"shortcommit", "tar_arch", "os_pkg_ext"}
  }

  /** The properties the `gen_upload_filename` template names. */
  const UploadKeys: set<string> := {"shortcommit", "os_name", "bits", "os_pkg_ext"}

  /** Every property `munge_artifact_filename` reads. */
  function NeededKeys(m: map<string, string>, os: Os): set<string> {
    {"artifact_filename"} + LocalKeys(Get(m, "artifact_filename"), os) + UploadKeys
  }

  /** Both file names can be formatted: no KeyError is raised. */
  predicate CanMunge(m: map<string, string>, os: Os) {
    NeededKeys(m, os) <= m.Keys
  }

  /** The bag after `munge_artifact_filename`: `local_filename` and
      `upload_filename` hold the two generated names and every other
      property is as it was; `None` when a needed property is missing, in
      which case the step fails before either property is set. */
  function Munge(m: map<string, string>, os: Os): (r: Option<map<string, string>>)
    ensures r.Some? <==> NeededKeys(m, os) <= m.Keys
    ensures r.Some? ==> r.value.Keys == m.Keys + {"local_filename", "upload_filename"}
    ensures r.Some? ==> forall k :: k in m && k != "local_filename" && k != "upload_filename" ==> r.value[k] == m[k]
    ensures r.Some? ==> r.value["local_filename"] == GenLocalFilename(View(m, os))
    ensures r.Some? ==> r.value["upload_filename"] == GenUploadFilename(View(m, os))
  {
    if !CanMunge(m, os) then None
    else
      var p := View(m, os);
      Some(m["local_filename" := GenLocalFilename(p)]["upload_filename" := GenUploadFilename(p)])
  }

  /** The buildbot properties object; `os` stands for what the platform
      predicates report for the worker. */
  class PropertyBag {
    var values: map<string, string>
    const os: Os

    constructor (os: Os, values: map<string, string>)
      ensures this.os == os && this.values == values
    {
      this.os := os;
      this.values := values;
    }

    /** `setProperty(name, value, source)`; the source label is not kept. */
    method SetProperty(name: string, value: string)
      modifies this
      ensures values == old(values)[name := value]
    {
      values := values[name := value];
    }

    /** `munge_artifact_filename`: both names are computed before either is
        stored, so the bag changes only when the step succeeds, and it
        then returns the no-op command `["true"]`. */
    method MungeArtifactFilename() returns (step: Option<seq<string>>)
      modifies this
      ensures step.Some? <==> CanMunge(old(values), os)
      ensures step.Some? ==> step.value == ["true"] && Some(values) == Munge(old(values), os)
      ensures step.None? ==> values == old(values)
    {
      if !CanMunge(values, os) {
        return None;
      }
      var props := View(values, os);
      var localFilename := GenLocalFilename(props);
      var uploadFilename := GenUploadFilename(props);
      SetProperty("local_filename", localFilename);
      SetProperty("upload_filename", uploadFilename);
      return Some(["true"]);
    }
  }

  // ------------------------------------------------------------- properties

  /** The names depend on the needed properties only: two bags that agree
      on them get the same two names, whatever else they hold. */
  lemma MungeReadsOnlyNeeded(m: map<string, string>, n: map<string, string>, os: Os)
    requires CanMunge(m, os)
    requires forall k :: k in NeededKeys(m, os) ==> k in n && n[k] == m[k]
    ensures Munge(n, os).Some?
    ensures Munge(n, os).value["local_filename"] == Munge(m, os).value["local_filename"]
    ensures Munge(n, os).value["upload_filename"] == Munge(m, os).value["upload_filename"]
  {
    var p, q := View(m, os), View(n, os);
    assert "artifact_filename" in NeededKeys(m, os);
    assert p.artifactFilename == q.artifactFilename;
    assert NeededKeys(n, os) == NeededKeys(m, os);
    assert p.osPkgExt == q.osPkgExt && p.shortcommit == q.shortcommit;
    assert p.osName == q.osName && p.bits == q.bits;
    if !HasMarkerPayload(Strip(p.artifactFilename)) {
      match os
      case Mac => assert p.version == q.version;
      case Windows => assert p.version == q.version && p.tarArch == q.tarArch;
      case Linux => assert p.tarArch == q.tarArch;
    }
  }

  /** The local file name depends only on `artifact_filename` and the
      properties `LocalKeys` names for it. */
  lemma LocalFilenameReadsOnlyLocalKeys(m: map<string, string>, n: map<string, string>, os: Os)
    requires Get(n, "artifact_filename") == Get(m, "artifact_filename")
    requires forall k :: k in LocalKeys(Get(m, "artifact_filename"), os) ==> Get(n, k) == Get(m, k)
    ensures GenLocalFilename(View(n, os)) == GenLocalFilename(View(m, os))
  {
    var p, q := View(m, os), View(n, os);
    assert p.osPkgExt == q.osPkgExt;
    if !HasMarkerPayload(Strip(p.artifactFilename)) {
      match os
      case Mac => assert p.version == q.version && p.shortcommit == q.shortcommit;
      case Windows => assert p.version == q.version && p.tarArch == q.tarArch;
      case Linux => assert p.shortcommit == q.shortcommit && p.tarArch == q.tarArch;
    }
  }

  /** The names read neither `local_filename` nor `upload_filename`. */
  lemma NamesIgnoreOutputs(m: map<string, string>, os: Os, local: string, upload: string)
    ensures var n := m["local_filename" := local]["upload_filename" := upload];
      GenLocalFilename(View(n, os)) == GenLocalFilename(View(m, os))
      && GenUploadFilename(View(n, os)) == GenUploadFilename(View(m, os))
  {
    var n := m["local_filename" := local]["upload_filename" := upload];
    assert View(n, os) == View(m, os).(uploadFilename := upload);
  }

  /** Nor do the properties the step reads depend on those two. */
  lemma NeededKeysIgnoreOutputs(m: map<string, string>, os: Os, local: string, upload: string)
    ensures NeededKeys(m["local_filename" := local]["upload_filename" := upload], os) == NeededKeys(m, os)
  {
    var n := m["local_filename" := local]["upload_filename" := upload];
    assert Get(n, "artifact_filename") == Get(m, "artifact_filename");
  }

  /** A bag that already holds the names the step would compute is left as it is. */
  lemma MungeFixedPoint(m: map<string, string>, os: Os)
    requires CanMunge(m, os)
    requires "local_filename" in m && m["local_filename"] == GenLocalFilename(View(m, os))
    requires "upload_filename" in m && m["upload_filename"] == GenUploadFilename(View(m, os))
    ensures Munge(m, os) == Some(m)
  {
    var p := View(m, os);
    assert m["local_filename" := GenLocalFilename(p)]["upload_filename" := GenUploadFilename(p)] == m;
  }

  /** Running the step again changes nothing: it is idempotent. */
  lemma MungeIdempotent(m: map<string, string>, os: Os)
    requires CanMunge(m, os)
    ensures Munge(Munge(m, os).value, os) == Munge(m, os)
  {
    var p := View(m, os);
    var local, upload := GenLocalFilename(p), GenUploadFilename(p);
    var m1 := m["local_filename" := local]["upload_filename" := upload];
    NeededKeysIgnoreOutputs(m, os, local, upload);
    NamesIgnoreOutputs(m, os, local, upload);
    MungeFixedPoint(m1, os);
  }

  /** After the step, the upload key ends with the name it stored, and the
      latest key with that name's `julia-latest-` form. */
  lemma MungeFeedsUploadPaths(m: map<string, string>, os: Os, hostOs: string)
    requires CanMunge(m, os)
    ensures var name := GenUploadFilename(View(m, os));
      var p := View(Munge(m, os).value, os);
      EndsWith(GenUploadPath(p, hostOs), "/" + name)
      && EndsWith(GenLatestUploadPath(p, hostOs), "/" + LatestName(name))
      && StartsWith(LatestName(name), "julia-latest-")
  {
    var name := GenUploadFilename(View(m, os));
    assert View(Munge(m, os).value, os).uploadFilename == name;
    var rest := name[6..];
    assert name == "julia-" + rest;
    LatestNameOfPrefixed(rest);
  }
}
