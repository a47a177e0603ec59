/** `update_metadata_urls`: point the `repository=` and `tracker=` entries
    of `metadata.txt` at a GitHub account, leaving every other line as it
    was. */
module MetadataUrls {
  import opened Wrappers
  import opened Strings

  const RepositoryKey: string := "repository="
  const TrackerKey: string := "tracker="

  function RepoUrl(user: string): string {
    "https://github.com/" + user + "/DEM_Downscaling"
  }

  function TrackerUrl(user: string): string {
    RepoUrl(user) + "/issues"
  }

  // --------------------------------------------------- split and join

  /** `content.split('\n')`: the pieces between newlines, at least one. */
  function Split(s: string): (lines: seq<string>)
    ensures |lines| >= 1
    ensures forall i :: 0 <= i < |lines| ==> '\n' !in lines[i]
  {
    if |s| == 0 then [""]
    else
      var rest := Split(s[1..]);
      if s[0] == '\n' then [""] + rest else [[s[0]] + rest[0]] + rest[1..]
  }

  /** `'\n'.join(lines)`. */
  function Join(lines: seq<string>): string
    requires |lines| >= 1
  {
    if |lines| == 1 then lines[0] else lines[0] + "\n" + Join(lines[1..])
  }

  /** Joining the pieces gives back the content. */
  lemma {:induction false} JoinSplit(s: string)
    ensures Join(Split(s)) == s
  {
    if |s| > 0 {
      JoinSplit(s[1..]);
      var rest := Split(s[1..]);
      if s[0] != '\n' {
        JoinFirstChar(s[0], rest);
        assert s == [s[0]] + s[1..];
      }
    }
  }

  lemma JoinFirstChar(c: char, lines: seq<string>)
    requires |lines| >= 1
    ensures Join([[c] + lines[0]] + lines[1..]) == [c] + Join(lines)
  {
    var first := [c] + lines[0];
    if |lines| == 1 {
      assert [first] + lines[1..] == [first];
    } else {
      var rest := Join(lines[1..]);
      JoinCons(first, lines[1..]);
      NewlineAssoc(c, lines[0], rest);
    }
  }

  lemma JoinCons(x: string, rest: seq<string>)
    requires |rest| >= 1
    ensures Join([x] + rest) == x + "\n" + Join(rest)
  {
    assert ([x] + rest)[1..] == rest;
  }

  lemma NewlineAssoc(c: char, a: string, b: string)
    ensures ([c] + a) + "\n" + b == [c] + (a + "\n" + b)
  {
  }

  /** Splitting lines that hold no newline gives them back. */
  lemma {:induction false} SplitJoin(lines: seq<string>)
    requires |lines| >= 1 && forall i :: 0 <= i < |lines| ==> '\n' !in lines[i]
    ensures Split(Join(lines)) == lines
  {
    if |lines| == 1 {
      SplitLine(lines[0], "", false);
    } else {
      SplitJoin(lines[1..]);
      SplitLine(lines[0], Join(lines[1..]), true);
    }
  }

  /** A newline-free prefix becomes the first piece. */
  lemma {:induction false} SplitLine(a: string, rest: string, newline: bool)
    requires '\n' !in a
    ensures newline ==> Split(a + "\n" + rest) == [a] + Split(rest)
    ensures !newline ==> Split(a) == [a]
  {
    if |a| > 0 {
      SplitLine(a[1..], rest, newline);
      assert (a + "\n" + rest)[1..] == a[1..] + "\n" + rest;
      assert [a[0]] + a[1..] == a;
    } else {
      assert a + "\n" + rest == "\n" + rest;
      assert ("\n" + rest)[1..] == rest;
    }
  }

  // ----------------------------------------------------------- rewriting

  /** The per-line rule of the loop. */
  function RewriteLine(line: string, user: string): (r: string)
    ensures StartsWith(line, RepositoryKey) ==> r == RepositoryKey + RepoUrl(user)
    ensures !StartsWith(line, RepositoryKey) && StartsWith(line, TrackerKey) ==> r == TrackerKey + TrackerUrl(user)
    ensures !StartsWith(line, RepositoryKey) && !StartsWith(line, TrackerKey) ==> r == line
  {
    if StartsWith(line, RepositoryKey) then RepositoryKey + RepoUrl(user)
    else if StartsWith(line, TrackerKey) then TrackerKey + TrackerUrl(user)
    else line
  }

  /** A rewritten line is its own rewrite, and it keeps its key. */
  lemma RewriteLineIdempotent(line: string, user: string)
    ensures RewriteLine(RewriteLine(line, user), user) == RewriteLine(line, user)
    ensures StartsWith(line, RepositoryKey) ==> StartsWith(RewriteLine(line, user), RepositoryKey)
    ensures StartsWith(line, TrackerKey) ==> StartsWith(RewriteLine(line, user), TrackerKey)
                                              || StartsWith(RewriteLine(line, user), RepositoryKey)
  {
    var r := RewriteLine(line, user);
    if StartsWith(line, RepositoryKey) {
      assert r[..|RepositoryKey|] == RepositoryKey;
    } else if StartsWith(line, TrackerKey) {
      assert r[..|TrackerKey|] == TrackerKey;
      assert r[0] != RepositoryKey[0];
    }
  }

  function RewriteLines(lines: seq<string>, user: string): (r: seq<string>)
    ensures |r| == |lines|
    ensures forall i :: 0 <= i < |lines| ==> r[i] == RewriteLine(lines[i], user)
  {
    if |lines| == 0 then [] else [RewriteLine(lines[0], user)] + RewriteLines(lines[1..], user)
  }

  /** The reference definition of the new file content. */
  function Rewrite(content: string, user: string): string {
    Join(RewriteLines(Split(content), user))
  }

  /** The whole function: a missing file gives `False` and nothing is
      written; otherwise the rewritten content is written back and the
      result is `True`. */
  method UpdateMetadataUrls(file: Option<string>, user: string) returns (ok: bool, written: Option<string>)
    ensures ok <==> file.Some?
    ensures file.None? ==> written.None?
    ensures file.Some? ==> written == Some(Rewrite(file.value, user))
  {
    if file.None? {
      return false, None;
    }
    var lines := Split(file.value);
    var newLines: seq<string> := [];
    var i := 0;
    while i < |lines|
      invariant 0 <= i <= |lines|
      invariant |newLines| == i
      invariant forall k :: 0 <= k < i ==> newLines[k] == RewriteLine(lines[k], user)
    {
      newLines := newLines + [RewriteLine(lines[i], user)];
      i := i + 1;
    }
    assert newLines == RewriteLines(lines, user);
    written := Some(Join(newLines));
    ok := true;
  }

  // ------------------------------------------------------------ properties

  /** With a newline-free user name the rewritten content has as many lines
      as before; `repository=` and `tracker=` lines carry the new URLs and
      every other line is untouched, in place. */
  lemma RewriteLineByLine(content: string, user: string)
    requires '\n' !in user
    ensures var before, after := Split(content), Split(Rewrite(content, user));
      && |after| == |before|
      && (forall i :: 0 <= i < |before| && StartsWith(before[i], RepositoryKey) ==>
            after[i] == RepositoryKey + RepoUrl(user))
      && (forall i :: 0 <= i < |before| && !StartsWith(before[i], RepositoryKey) && StartsWith(before[i], TrackerKey) ==>
            after[i] == TrackerKey + TrackerUrl(user))
      && (forall i :: 0 <= i < |before| && !StartsWith(before[i], RepositoryKey) && !StartsWith(before[i], TrackerKey) ==>
            after[i] == before[i])
  {
    RewrittenSplits(content, user);
  }

  /** The rewritten lines hold no newline, so splitting the new content gives
      exactly the rewritten lines. */
  lemma RewrittenSplits(content: string, user: string)
    requires '\n' !in user
    ensures Split(Rewrite(content, user)) == RewriteLines(Split(content), user)
  {
    var lines := RewriteLines(Split(content), user);
    forall i | 0 <= i < |lines|
      ensures '\n' !in lines[i]
    {
      var url := RepoUrl(user);
      assert '\n' !in "https://github.com/" && '\n' !in "/DEM_Downscaling" && '\n' !in "/issues";
      assert '\n' !in RepositoryKey && '\n' !in TrackerKey;
    }
    SplitJoin(lines);
  }

  /** Running the update twice with the same user name leaves the file as
      the first run wrote it. */
  lemma RewriteIdempotent(content: string, user: string)
    requires '\n' !in user
    ensures Rewrite(Rewrite(content, user), user) == Rewrite(content, user)
  {
    var lines := RewriteLines(Split(content), user);
    RewrittenSplits(content, user);
    var twice := RewriteLines(lines, user);
    forall i | 0 <= i < |lines|
      ensures twice[i] == lines[i]
    {
      RewriteLineIdempotent(Split(content)[i], user);
    }
    assert twice == lines;
  }

  /** Decoded content with neither key is written back unchanged. The file
      itself is read and written in text mode, so line endings are
      normalised to `\n` on the way in; that translation is outside this
      model. */
  lemma RewriteWithoutKeys(content: string, user: string)
    requires forall i :: 0 <= i < |Split(content)| ==>
      !StartsWith(Split(content)[i], RepositoryKey) && !StartsWith(Split(content)[i], TrackerKey)
    ensures Rewrite(content, user) == content
  {
    var lines := Split(content);
    assert RewriteLines(lines, user) == lines;
    JoinSplit(content);
  }
}
