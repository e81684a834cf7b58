/** The two stdout parsers of master/package.py: `parse_julia_version`
    (the output of `julia -e 'println("$major.$minor.$patch\n$commit")'`)
    and `parse_git_log` (the output of
    `git log -1 --pretty=format:%s%n%cN%n%cE%n%aN%n%aE`). Both index into
    `stdout.split('\n')`; too few lines raise IndexError, modelled as `None`. */
module Parse {
  import opened Wrappers
  import opened Text

  /** The properties `parse_julia_version` sets. */
  datatype VersionInfo = VersionInfo(majmin: string, version: string, shortcommit: string)

  /** The properties `parse_git_log` sets. */
  datatype CommitInfo = CommitInfo(
    commitmessage: string,
    commitname: string,
    commitemail: string,
    authorname: string,
    authoremail: string)

  /** `line[:line.rfind('.')]`: everything before the last dot. Without a
      dot, rfind gives -1 and the slice drops the last character. */
  function Majmin(line: string): (mm: string)
    ensures '.' in line ==> |mm| < |line| && mm == line[..|mm|] && line[|mm|] == '.' && '.' !in line[|mm| + 1..]
    ensures '.' !in line ==> mm == line[..if line == [] then 0 else |line| - 1]
  {
    var i := RFind(line, '.');
    assert '.' in line ==> i >= 0 by {
      if '.' in line {
        var j :| 0 <= j < |line| && line[j] == '.';
      }
    }
    Take(line, i)
  }

  /** majmin is a prefix of the version line. */
  lemma MajminIsPrefix(line: string)
    ensures Majmin(line) <= line
  {
    var mm := Majmin(line);
    if '.' !in line {
      assert mm == line[..if line == [] then 0 else |line| - 1];
    }
  }

  /** Stripping adds no character. */
  lemma StripKeepsOut(s: string, c: char)
    requires c !in s
    ensures c !in Strip(s)
  {
    var r := Strip(s);
    var n := LeadingSpace(s);
    assert forall k :: 0 <= k < |r| ==> r[k] == s[n + k];
  }

  /** The first piece of a split is a prefix of the split string. */
  lemma FirstPieceIsPrefix(s: string, sep: char)
    ensures Split(s, sep)[0] <= s
  {
    var parts := Split(s, sep);
    JoinSplit(s, sep);
    if |parts| > 1 {
      assert Join(parts, sep) == parts[0] + ([sep] + Join(parts[1..], sep));
    }
  }

  /** Lines 0 and 1 of the output give majmin, version and shortcommit;
      line 1 must exist, that is, the output must hold a newline. */
  function ParseJuliaVersion(stdout: string): (r: Option<VersionInfo>)
    ensures r.Some? <==> '\n' in stdout
    ensures r.Some? ==> r.value.majmin <= stdout
    ensures r.Some? ==> '\n' !in r.value.version && '\n' !in r.value.shortcommit
    ensures r.Some? ==> Strip(r.value.version) == r.value.version && Strip(r.value.shortcommit) == r.value.shortcommit
  {
    var lines := Split(stdout, '\n');
    SplitCount(stdout, '\n');
    if |lines| < 2 then None
    else
      SplitPiecesSepFree(stdout, '\n');
      FirstPieceIsPrefix(stdout, '\n');
      MajminIsPrefix(lines[0]);
      assert Majmin(lines[0]) <= stdout by {
        var mm := Majmin(lines[0]);
        assert mm == lines[0][..|mm|] && lines[0] == stdout[..|lines[0]|];
      }
      StripIdempotent(lines[0]);
      StripIdempotent(lines[1]);
      StripKeepsOut(lines[0], '\n');
      StripKeepsOut(lines[1], '\n');
      Some(VersionInfo(Majmin(lines[0]), Strip(lines[0]), Strip(lines[1])))
  }

  /** Lines 0 to 4, unstripped and in order, give the five commit fields;
      line 4 must exist, that is, the output must hold four newlines. */
  function ParseGitLog(stdout: string): (r: Option<CommitInfo>)
    ensures r.Some? <==> Occurrences(stdout, '\n') >= 4
    ensures r.Some? ==> r.value.commitmessage <= stdout
    ensures r.Some? ==> ('\n' !in r.value.commitmessage && '\n' !in r.value.commitname
                         && '\n' !in r.value.commitemail && '\n' !in r.value.authorname
                         && '\n' !in r.value.authoremail)
  {
    var lines := Split(stdout, '\n');
    SplitCount(stdout, '\n');
    if |lines| < 5 then None
    else
      SplitPiecesSepFree(stdout, '\n');
      FirstPieceIsPrefix(stdout, '\n');
      Some(CommitInfo(lines[0], lines[1], lines[2], lines[3], lines[4]))
  }

  /** The lines of `line + tail` when `tail` is empty or starts a new line:
      `line` is the first one. */
  lemma LastLine(line: string, tail: string)
    requires '\n' !in line
    requires tail == [] || tail[0] == '\n'
    ensures Split(line + tail, '\n')[0] == line
  {
    SplitPrefix(line, tail, '\n');
    if tail != [] {
      assert tail == [] + ['\n'] + tail[1..];
      SplitCons([], tail[1..], '\n');
    }
  }

  /** Round trip: the output of the version command (a version line, a
      commit line, then anything on later lines) parses back into them. */
  lemma {:induction false} ParseJuliaVersionOfOutput(version: string, commit: string, tail: string)
    requires '\n' !in version && '\n' !in commit
    requires tail == [] || tail[0] == '\n'
    ensures ParseJuliaVersion(version + "\n" + commit + tail)
         == Some(VersionInfo(Majmin(version), Strip(version), Strip(commit)))
  {
    var rest := commit + tail;
    var out := version + "\n" + commit + tail;
    assert out == version + ['\n'] + rest;
    SplitCons(version, rest, '\n');
    LastLine(commit, tail);
    var lines := Split(out, '\n');
    assert lines == [version] + Split(rest, '\n');
    assert |lines| >= 2 && lines[0] == version && lines[1] == commit;
  }

  /** majmin on a release version, and on a version line without a dot,
      which loses its last character. */
  lemma MajminExamples()
    ensures Majmin("1.7.2") == "1.7"
    ensures Majmin("1234") == "123"
  {
  }

  lemma StripExamples()
    ensures Strip("1.7.2") == "1.7.2" && Strip("1234") == "1234" && Strip("abcdef1234") == "abcdef1234"
  {
    StripNoop("1.7.2");
    StripNoop("1234");
    StripNoop("abcdef1234");
  }

  /** The output of a release build: majmin "1.7", version "1.7.2". */
  lemma JuliaVersionExample(version: string, commit: string)
    requires version == "1.7.2" && commit == "abcdef1234"
    ensures ParseJuliaVersion(version + "\n" + commit + "\n") == Some(VersionInfo("1.7", "1.7.2", "abcdef1234"))
  {
    ParseJuliaVersionOfOutput(version, commit, "\n");
    MajminExamples();
    StripExamples();
  }

  /** Output whose first line has no dot still parses; majmin drops a character. */
  lemma JuliaVersionWithoutDot(version: string, commit: string)
    requires version == "1234" && commit == "abcdef1234"
    ensures ParseJuliaVersion(version + "\n" + commit + "\n") == Some(VersionInfo("123", "1234", "abcdef1234"))
  {
    ParseJuliaVersionOfOutput(version, commit, "\n");
    MajminExamples();
    StripExamples();
  }

  /** Round trip: the five lines `git log -1 --pretty=format:%s%n%cN%n%cE%n%aN%n%aE`
      prints, followed by anything on later lines, parse back into the five
      fields; later lines are ignored. */
  lemma {:induction false} ParseGitLogOfOutput(
    message: string, name: string, email: string, aname: string, aemail: string, tail: string)
    requires '\n' !in message && '\n' !in name && '\n' !in email && '\n' !in aname && '\n' !in aemail
    requires tail == [] || tail[0] == '\n'
    ensures ParseGitLog(message + "\n" + name + "\n" + email + "\n" + aname + "\n" + aemail + tail)
         == Some(CommitInfo(message, name, email, aname, aemail))
  {
    var r4 := aemail + tail;
    var r3 := aname + "\n" + r4;
    var r2 := email + "\n" + r3;
    var r1 := name + "\n" + r2;
    var out := message + "\n" + name + "\n" + email + "\n" + aname + "\n" + aemail + tail;
    assert out == message + ['\n'] + r1;
    SplitCons(message, r1, '\n');
    SplitCons(name, r2, '\n');
    SplitCons(email, r3, '\n');
    SplitCons(aname, r4, '\n');
    LastLine(aemail, tail);
    var lines := Split(out, '\n');
    assert lines == [message] + ([name] + ([email] + ([aname] + Split(r4, '\n'))));
    assert |lines| >= 5 && lines[0] == message && lines[1] == name && lines[2] == email;
    assert lines[3] == aname && lines[4] == aemail;
  }
}
