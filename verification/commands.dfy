/** The command renderers of master/package.py: the argument vector that
    asks the freshly built julia for its version, the two upload commands
    and the macOS app packaging command. Each builds a list of strings
    from the naming functions and the build properties. */
module Commands {
  import opened Wrappers
  import opened Text
  import opened Naming
  import opened Properties

  // ------------------------------------------------------- version command

  /** The julia expression that prints `<major>.<minor>.<patch>` and, on a
      second line, the first ten characters of the commit. */
  const VersionSnippet: string :=
    "println(\"$(VERSION.major).$(VERSION.minor).$(VERSION.patch)\\n$(Base.GIT_VERSION_INFO.commit[1:10])\")"

  /** `make_julia_version_command`: `usr/bin/julia -e <snippet>`, where the
      program name gets `.exe` appended in place on Windows. */
  method MakeJuliaVersionCommand(os: Os) returns (command: seq<string>)
    ensures |command| == 3 && command[1] == "-e" && command[2] == VersionSnippet
    ensures command[0] == "usr/bin/julia.exe" <==> os == Windows
    ensures os != Windows ==> command[0] == "usr/bin/julia"
  {
    command := ["usr/bin/julia", "-e", VersionSnippet];
    if os == Windows {
      command := command[0 := command[0] + ".exe"];
    }
  }

  // ------------------------------------------------------- upload commands

  /** The fixed start of the upload script. */
  const AwsPut: string := "~/bin/try_thrice ~/bin/aws put --fail --public "

  /** Where the packaging steps leave the file to upload. */
  const Staging: string := "/tmp/julia_package/"

  predicate SpaceFree(s: string) {
    ' ' !in s
  }

  /** `~/bin/try_thrice ~/bin/aws put --fail --public <key> /tmp/julia_package/<fname>`:
      after the fixed start come exactly two words, the key and the staged
      file, as long as neither holds a space. */
  function PutScript(key: string, fname: string): (script: string)
    ensures StartsWith(script, AwsPut)
    ensures SpaceFree(key) && SpaceFree(fname) ==> Split(script[|AwsPut|..], ' ') == [key, Staging + fname]
  {
    var words := key + " " + Staging + fname;
    assert SpaceFree(key) && SpaceFree(fname) ==> Split(words, ' ') == [key, Staging + fname] by {
      if SpaceFree(key) && SpaceFree(fname) {
        assert SpaceFree(Staging + fname);
        assert words == key + [' '] + (Staging + fname);
        SplitPrefix(key, [], ' ');
        assert key + [] == key;
        SplitSnoc(key, Staging + fname, ' ');
      }
    }
    assert (AwsPut + words)[|AwsPut|..] == words;
    AwsPut + words
  }

  /** The upload key holds a space only if one of its parts does. */
  lemma UploadPathSpaceFree(p: BuildProps, hostOs: string)
    ensures SpaceFree(hostOs) && SpaceFree(p.upArch) && SpaceFree(p.majmin) && SpaceFree(p.uploadFilename)
      ==> SpaceFree(GenUploadPath(p, hostOs))
  {
    assert SpaceFree(BinRoot);
  }

  /** The latest key holds a space only if one of its parts does. */
  lemma LatestUploadPathSpaceFree(p: BuildProps, hostOs: string)
    ensures SpaceFree(hostOs) && SpaceFree(p.upArch) && SpaceFree(p.uploadFilename)
      ==> SpaceFree(GenLatestUploadPath(p, hostOs))
  {
    assert SpaceFree(BinRoot);
    var f := p.uploadFilename;
    if StartsWith(f, "julia-") {
      assert forall k :: 0 <= k < |f[6..]| ==> f[6..][k] == f[k + 6];
      assert SpaceFree("julia-latest-");
    }
  }

  /** `render_upload_command`: a bash command that puts the staged upload
      file under the upload key. */
  function RenderUploadCommand(p: BuildProps, hostOs: string): (cmd: seq<string>)
    ensures |cmd| == 3 && cmd[0] == "/bin/bash" && cmd[1] == "-c" && StartsWith(cmd[2], AwsPut)
    ensures SpaceFree(hostOs) && SpaceFree(p.upArch) && SpaceFree(p.majmin) && SpaceFree(p.uploadFilename)
      ==> Split(cmd[2][|AwsPut|..], ' ') == [GenUploadPath(p, hostOs), Staging + p.uploadFilename]
  {
    UploadPathSpaceFree(p, hostOs);
    ["/bin/bash", "-c", PutScript(GenUploadPath(p, hostOs), p.uploadFilename)]
  }

  /** `render_latest_upload_command`: the same staged file, put under the
      latest key. */
  function RenderLatestUploadCommand(p: BuildProps, hostOs: string): (cmd: seq<string>)
    ensures |cmd| == 3 && cmd[0] == "/bin/bash" && cmd[1] == "-c" && StartsWith(cmd[2], AwsPut)
    ensures SpaceFree(hostOs) && SpaceFree(p.upArch) && SpaceFree(p.uploadFilename)
      ==> Split(cmd[2][|AwsPut|..], ' ') == [GenLatestUploadPath(p, hostOs), Staging + p.uploadFilename]
  {
    LatestUploadPathSpaceFree(p, hostOs);
    ["/bin/bash", "-c", PutScript(GenLatestUploadPath(p, hostOs), p.uploadFilename)]
  }

  /** The two upload commands stage the same file and differ in the key
      only; the keys themselves always differ, so the latest copy never
      overwrites the versioned one. */
  lemma UploadCommandsShareFile(p: BuildProps, hostOs: string)
    requires SpaceFree(hostOs) && SpaceFree(p.upArch) && SpaceFree(p.majmin) && SpaceFree(p.uploadFilename)
    requires SlashFree(hostOs) && SlashFree(p.upArch) && SlashFree(p.majmin) && SlashFree(p.uploadFilename)
    ensures var u, l := RenderUploadCommand(p, hostOs), RenderLatestUploadCommand(p, hostOs);
      Split(u[2][|AwsPut|..], ' ')[1] == Split(l[2][|AwsPut|..], ' ')[1]
      && u[2] != l[2]
  {
    UploadAndLatestPathsDiffer(p, hostOs);
    var u, l := RenderUploadCommand(p, hostOs), RenderLatestUploadCommand(p, hostOs);
    assert Split(u[2][|AwsPut|..], ' ')[0] != Split(l[2][|AwsPut|..], ' ')[0];
  }

  // ------------------------------------------------------- app packaging

  /** `x + (y + z) + w` ends with `z + w`. */
  lemma EndsWithLast(x: string, y: string, z: string, w: string)
    ensures EndsWith(x + (y + z) + w, z + w)
  {
    assert x + (y + z) + w == (x + y) + (z + w);
  }

  /** `render_make_app`: try `make <flags> app`, and if that fails build
      with `make -C contrib/mac/app` and move the disk image to the local
      file name, which ends the script. Formatting raises KeyError,
      modelled as `None`, when `flags` or `local_filename` is not set. */
  function RenderMakeApp(m: map<string, string>): (r: Option<seq<string>>)
    ensures r.Some? <==> "flags" in m && "local_filename" in m
    ensures r.Some? ==> |r.value| == 3 && r.value[0] == "/bin/bash" && r.value[1] == "-c"
    ensures r.Some? ==> StartsWith(r.value[2], "~/unlock_keychain.sh && (make " + m["flags"] + " app || (")
    ensures r.Some? ==> EndsWith(r.value[2], m["local_filename"] + "))")
  {
    if "flags" !in m || "local_filename" !in m then None
    else
      var flags, local := m["flags"], m["local_filename"];
      var newWay := "make " + flags + " app";
      var oldWay := "make " + flags + " -C contrib/mac/app && mv contrib/mac/app/*.dmg " + local;
      var script := "~/unlock_keychain.sh && (" + newWay + " || (" + oldWay + "))";
      EndsWithLast("~/unlock_keychain.sh && (" + newWay + " || (",
                   "make " + flags + " -C contrib/mac/app && mv contrib/mac/app/*.dmg ", local, "))");
      assert StartsWith(script, "~/unlock_keychain.sh && (make " + flags + " app || (") by {
        var head := "~/unlock_keychain.sh && (" + newWay + " || (";
        assert head == "~/unlock_keychain.sh && (make " + flags + " app || (";
        assert script == head + (oldWay + "))");
      }
      Some(["/bin/bash", "-c", script])
  }

  /** Once `munge_artifact_filename` has run, the app command can be
      rendered whenever `flags` is set, and it moves the image to the local
      file name the munge step computed. */
  lemma MakeAppAfterMunge(m: map<string, string>, os: Os)
    requires CanMunge(m, os) && "flags" in m
    ensures var r := RenderMakeApp(Munge(m, os).value);
      r.Some? && EndsWith(r.value[2], GenLocalFilename(View(m, os)) + "))")
  {
    var m1 := Munge(m, os).value;
    assert "flags" in m1;
  }
}
