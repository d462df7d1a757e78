/** The Git-host gateway (GiteaService), narrowed to its decisions: which
    requests it sends, in which order, and which failures it swallows,
    wraps or lets through. The remote is abstract: `Remote.answer` gives the
    reply to each request, and `Remote.trees` is a snapshot of the source
    repositories that the copy walks. Every request sent is appended to the
    gateway's call log. */
module Gitea {
  import opened Errors

  /** (owner, repository name). */
  type RepoRef = (string, string)

  /** The one entry of a JSON reply that the caller reads: absent, a number or a string. */
  datatype Field = Absent | Num(n: int) | Text(s: string)

  /** How the remote answers a request: success with no body, success with
      a body, or one of the failures the gateway tells apart. */
  datatype Reply = NoBody | Body(field: Field) | NotFound | Conflict | Failed

  /** The requests the gateway sends. An absent username, email or password
      of a new user goes out as a JSON null. */
  datatype Call =
    | CreateUser(login: Option<string>, email: Option<string>, password: Option<string>)
    | DeleteUser(username: string)
    | CreateRepo(repo: string, isPrivate: bool)
    | DeleteRepo(owner: string, repo: string)
    | GetRepo(owner: string, repo: string)
    | ListContents(owner: string, repo: string, path: string)
    | FileContent(owner: string, repo: string, path: string)
    | FileInfo(owner: string, repo: string, path: string)
    | PutFile(owner: string, repo: string, path: string, content: string, sha: Field)
    | PostFile(owner: string, repo: string, path: string, content: string)
    | AddCollaborator(owner: string, repo: string, user: string, permission: string)

  /** An entry of a directory listing, as the copy sees it: a file whose
      content could be read (or not), a directory whose listing could be
      read (or not), or an entry of another type. */
  datatype Node =
    | File(path: string, content: Option<string>)
    | Dir(path: string, entries: seq<Node>)
    | UnreadableDir(path: string)
    | Other(path: string)

  /** The remote's fixed behaviour and the gateway's configuration. */
  datatype Remote = Remote(
    admin: string,
    jsTemplate: RepoRef,
    pythonTemplate: RepoRef,
    answer: Call -> Reply,
    trees: map<RepoRef, seq<Node>>)

  /** What a composite operation sends, and what it returns or throws. */
  datatype Trace<T> = Trace(calls: seq<Call>, result: Result<T>)

  // ---------------------------------------------------------------- single requests

  /** createGiteaUser: the id from the reply, anything else is wrapped. */
  function CreateUserOutcome(reply: Reply): (r: Result<int>)
    ensures r.Ok? <==> reply.Body? && reply.field.Num?
    ensures r.Ok? ==> r.value == reply.field.n
    ensures r.Err? ==> r.error == ExternalService
  {
    match reply
    case Body(Num(id)) => Ok(id)
    case _ => Err(ExternalService)
  }

  /** deleteGiteaUser and deleteRepository: a missing target is tolerated,
      any other failure is wrapped. */
  function DeleteOutcome(reply: Reply): (r: Result<()>)
    ensures r.Ok? <==> !(reply.Conflict? || reply.Failed?)
    ensures r.Err? ==> r.error == ExternalService
  {
    match reply
    case Conflict => Err(ExternalService)
    case Failed => Err(ExternalService)
    case _ => Ok(())
  }

  /** createEmptyRepository: the clone URL, or a wrapped failure (conflict,
      error, no URL, or a URL that is not a string). */
  function CreateRepoOutcome(reply: Reply): (r: Result<string>)
    ensures r.Ok? <==> reply.Body? && reply.field.Text?
    ensures r.Ok? ==> r.value == reply.field.s
    ensures r.Err? ==> r.error == ExternalService
  {
    match reply
    case Body(Text(url)) => Ok(url)
    case _ => Err(ExternalService)
  }

  /** getRepository: present, absent (404 or no body), or a wrapped failure. */
  function GetRepoOutcome(reply: Reply): (r: Result<bool>)
    ensures r == Ok(true) <==> reply.Body?
    ensures r == Ok(false) <==> (reply.NoBody? || reply.NotFound?)
    ensures r.Err? ==> r.error == ExternalService
  {
    match reply
    case Body(_) => Ok(true)
    case NoBody => Ok(false)
    case NotFound => Ok(false)
    case _ => Err(ExternalService)
  }

  /** addCollaborator: no handler, so any failure escapes unwrapped. */
  function CollaboratorOutcome(reply: Reply): (r: Result<()>)
    ensures r.Ok? <==> (reply.NoBody? || reply.Body?)
    ensures r.Err? ==> r.error == RemoteCallFailed
  {
    match reply
    case NoBody => Ok(())
    case Body(_) => Ok(())
    case _ => Err(RemoteCallFailed)
  }

  // ---------------------------------------------------------------- uploadFile

  /** The URL of a written file: the reply's "html_url" string, none when the
      entry is absent; a missing body or a non-string entry raises `failure`. */
  function WriteOutcome(reply: Reply, failure: Exception): (r: Result<Option<string>>)
    ensures r.Ok? <==> reply.Body? && !reply.field.Num?
    ensures r.Err? ==> r.error == failure
  {
    match reply
    case Body(Text(url)) => Ok(Some(url))
    case Body(Absent) => Ok(None)
    case _ => Err(failure)
  }

  /** The create request of the catch branch. Nothing catches its failures. */
  function PostTrace(remote: Remote, owner: string, repo: string, path: string, content: string): Trace<Option<string>>
  {
    var post := PostFile(owner, repo, path, content);
    Trace([post], WriteOutcome(remote.answer(post), RemoteCallFailed))
  }

  /** The update request sent when the file has a sha: a 404 falls back to
      creating the file, any other failure is wrapped. */
  function PutTrace(remote: Remote, owner: string, repo: string, path: string, content: string, sha: Field): Trace<Option<string>>
  {
    var put := PutFile(owner, repo, path, content, sha);
    match remote.answer(put)
    case NotFound =>
      var p := PostTrace(remote, owner, repo, path, content);
      Trace([put] + p.calls, p.result)
    case reply => Trace([put], WriteOutcome(reply, ExternalService))
  }

  /** Which uploadFile a gateway runs: the body as written, or the one its
      documentation describes. */
  datatype UploadMode = AsWritten | Corrected

  /** uploadFile. The file-info probe maps 404 to null; a sha sends the
      update. As written, a null probe result skips both the update and the
      create; corrected, a 404 from the probe takes the same create path as a
      404 from the update, so a file that does not exist yet is created. */
  function UploadTrace(remote: Remote, mode: UploadMode, owner: string, repo: string, path: string, content: string): Trace<Option<string>>
  {
    var info := FileInfo(owner, repo, path);
    match remote.answer(info)
    case Body(Text(sha)) => var t := PutTrace(remote, owner, repo, path, content, Text(sha)); Trace([info] + t.calls, t.result)
    case Body(Num(sha)) => var t := PutTrace(remote, owner, repo, path, content, Num(sha)); Trace([info] + t.calls, t.result)
    case Conflict => Trace([info], Err(ExternalService))
    case Failed => Trace([info], Err(ExternalService))
    case NotFound =>
      if mode == Corrected then var t := PostTrace(remote, owner, repo, path, content); Trace([info] + t.calls, t.result)
      else Trace([info], Ok(None))
    case _ => Trace([info], Ok(None))
  }

  /** `c` writes `content` at `path` of owner/repo. */
  predicate IsWriteOf(c: Call, owner: string, repo: string, path: string, content: string)
  {
    (c.PutFile? || c.PostFile?) && c.owner == owner && c.repo == repo && c.path == path && c.content == content
  }

  /** The probe's answer says the file exists with a sha, or does not exist. */
  predicate ProbeAllowsWrite(reply: Reply)
  {
    reply.NotFound? || (reply.Body? && !reply.field.Absent?)
  }

  /** Every request of an upload addresses the one file. */
  predicate AllAddress(calls: seq<Call>, owner: string, repo: string, path: string)
  {
    forall c :: c in calls ==>
      (c.FileInfo? || c.PutFile? || c.PostFile?) && c.owner == owner && c.repo == repo && c.path == path
  }

  /** The corrected upload: it addresses only the given file, sends at most
      three requests, and when it succeeds on a file that exists with a sha
      or does not exist yet, its last request wrote exactly the content and
      the remote accepted it. */
  lemma UploadWritesContent(remote: Remote, owner: string, repo: string, path: string, content: string)
    ensures var t := UploadTrace(remote, Corrected, owner, repo, path, content);
      1 <= |t.calls| <= 3 && t.calls[0] == FileInfo(owner, repo, path) &&
      AllAddress(t.calls, owner, repo, path) &&
      (t.result.Ok? && ProbeAllowsWrite(remote.answer(FileInfo(owner, repo, path))) ==>
        IsWriteOf(t.calls[|t.calls| - 1], owner, repo, path, content) &&
        remote.answer(t.calls[|t.calls| - 1]).Body?)
  {
  }

  /** The upload as written never creates a file: when the probe answers 404
      it sends nothing more and reports success with no URL. */
  lemma UploadAsWrittenSkipsMissingFile(remote: Remote, owner: string, repo: string, path: string, content: string)
    requires remote.answer(FileInfo(owner, repo, path)) == NotFound
    ensures UploadTrace(remote, AsWritten, owner, repo, path, content) == Trace([FileInfo(owner, repo, path)], Ok(None))
    ensures forall c :: c in UploadTrace(remote, AsWritten, owner, repo, path, content).calls ==>
      !IsWriteOf(c, owner, repo, path, content)
    ensures exists c :: (c in UploadTrace(remote, Corrected, owner, repo, path, content).calls &&
      IsWriteOf(c, owner, repo, path, content))
  {
    var post := PostFile(owner, repo, path, content);
    assert UploadTrace(remote, Corrected, owner, repo, path, content).calls[1] == post;
    assert IsWriteOf(post, owner, repo, path, content);
  }

  /** The two agree whenever the probe finds the file or fails. */
  lemma UploadFixOnlyChangesMissingFile(remote: Remote, owner: string, repo: string, path: string, content: string)
    ensures remote.answer(FileInfo(owner, repo, path)) != NotFound ==>
      UploadTrace(remote, Corrected, owner, repo, path, content) == UploadTrace(remote, AsWritten, owner, repo, path, content)
  {
  }

  // ---------------------------------------------------------------- copyRepositoryContents

  /** What handling one listing entry sends: a file is read and, when its
      content could be read, uploaded at the same path under admin/target; a
      directory is listed and walked; other entries are ignored. */
  function NodeTrace(remote: Remote, mode: UploadMode, src: RepoRef, target: string, n: Node): Trace<()>
    decreases n
  {
    match n
    case File(p, None) => Trace([FileContent(src.0, src.1, p)], Ok(()))
    case File(p, Some(c)) =>
      var up := UploadTrace(remote, mode, remote.admin, target, p, c);
      Trace([FileContent(src.0, src.1, p)] + up.calls, if up.result.Err? then Err(up.result.error) else Ok(()))
    case Dir(p, es) =>
      var t := EntriesTrace(remote, mode, src, target, es);
      Trace([ListContents(src.0, src.1, p)] + t.calls, t.result)
    case UnreadableDir(p) => Trace([ListContents(src.0, src.1, p)], Ok(()))
    case Other(_) => Trace([], Ok(()))
  }

  /** The loop over a listing: entries in order, stopping at the first failure. */
  function EntriesTrace(remote: Remote, mode: UploadMode, src: RepoRef, target: string, nodes: seq<Node>): Trace<()>
    decreases nodes
  {
    if nodes == [] then Trace([], Ok(()))
    else
      var head := NodeTrace(remote, mode, src, target, nodes[0]);
      if head.result.Err? then head
      else
        var rest := EntriesTrace(remote, mode, src, target, nodes[1..]);
        Trace(head.calls + rest.calls, rest.result)
  }

  /** The root listing of a repository; an unknown repository lists as empty. */
  function RootListing(remote: Remote, src: RepoRef): seq<Node>
  {
    if src in remote.trees then remote.trees[src] else []
  }

  /** copyRepositoryContents: list the root, walk it, wrap any failure. */
  function CopyTrace(remote: Remote, mode: UploadMode, src: RepoRef, target: string): (t: Trace<()>)
    ensures |t.calls| > 0 && t.calls[0] == ListContents(src.0, src.1, "")
    ensures t.result.Err? ==> t.result.error == ExternalService
  {
    var walk := EntriesTrace(remote, mode, src, target, RootListing(remote, src));
    Trace([ListContents(src.0, src.1, "")] + walk.calls, if walk.result.Err? then Err(ExternalService) else Ok(()))
  }

  /** The readable files of a tree, as (path, content). */
  function FilesOf(n: Node): set<(string, string)>
    decreases n
  {
    match n
    case File(p, Some(c)) => {(p, c)}
    case Dir(_, es) => FilesIn(es)
    case _ => {}
  }

  function FilesIn(nodes: seq<Node>): set<(string, string)>
    decreases nodes
  {
    if nodes == [] then {} else FilesOf(nodes[0]) + FilesIn(nodes[1..])
  }

  /** Some request of `calls` wrote `content` at `path` of admin/target and
      the remote accepted it. */
  predicate Wrote(remote: Remote, calls: seq<Call>, target: string, path: string, content: string)
  {
    exists c :: c in calls && IsWriteOf(c, remote.admin, target, path, content) && remote.answer(c).Body?
  }

  /** The probe for `path` under admin/target allows a write. */
  predicate Writable(remote: Remote, target: string, path: string)
  {
    ProbeAllowsWrite(remote.answer(FileInfo(remote.admin, target, path)))
  }

  lemma {:induction false} NodeCopiesFiles(remote: Remote, src: RepoRef, target: string, n: Node)
    requires NodeTrace(remote, Corrected, src, target, n).result.Ok?
    ensures forall f :: f in FilesOf(n) && Writable(remote, target, f.0) ==>
      Wrote(remote, NodeTrace(remote, Corrected, src, target, n).calls, target, f.0, f.1)
    decreases n
  {
    match n
    case File(p, Some(c)) =>
      var up := UploadTrace(remote, Corrected, remote.admin, target, p, c);
      UploadWritesContent(remote, remote.admin, target, p, c);
      if Writable(remote, target, p) {
        var last := up.calls[|up.calls| - 1];
        assert last in NodeTrace(remote, Corrected, src, target, n).calls;
      }
    case Dir(p, es) =>
      EntriesCopyFiles(remote, src, target, es);
    case _ =>
  }

  /** A walk that succeeds wrote every readable file of the tree whose probe
      allows a write, at the same path under admin/target. */
  lemma {:induction false} EntriesCopyFiles(remote: Remote, src: RepoRef, target: string, nodes: seq<Node>)
    requires EntriesTrace(remote, Corrected, src, target, nodes).result.Ok?
    ensures forall f :: f in FilesIn(nodes) && Writable(remote, target, f.0) ==>
      Wrote(remote, EntriesTrace(remote, Corrected, src, target, nodes).calls, target, f.0, f.1)
    decreases nodes
  {
    if nodes != [] {
      var all := EntriesTrace(remote, Corrected, src, target, nodes).calls;
      var head := NodeTrace(remote, Corrected, src, target, nodes[0]);
      var rest := EntriesTrace(remote, Corrected, src, target, nodes[1..]);
      assert all == head.calls + rest.calls;
      NodeCopiesFiles(remote, src, target, nodes[0]);
      EntriesCopyFiles(remote, src, target, nodes[1..]);
      forall f | f in FilesIn(nodes) && Writable(remote, target, f.0)
        ensures Wrote(remote, all, target, f.0, f.1)
      {
        if f in FilesOf(nodes[0]) {
          var c :| c in head.calls && IsWriteOf(c, remote.admin, target, f.0, f.1) && remote.answer(c).Body?;
          assert c in all;
        } else {
          var c :| c in rest.calls && IsWriteOf(c, remote.admin, target, f.0, f.1) && remote.answer(c).Body?;
          assert c in all;
        }
      }
    }
  }

  /** A request of the copy reads from the source repository or writes
      under admin/target; nothing else is touched. */
  predicate Confined(c: Call, src: RepoRef, admin: string, target: string)
  {
    ((c.ListContents? || c.FileContent?) && c.owner == src.0 && c.repo == src.1) ||
    ((c.FileInfo? || c.PutFile? || c.PostFile?) && c.owner == admin && c.repo == target)
  }

  lemma {:induction false} NodeConfined(remote: Remote, mode: UploadMode, src: RepoRef, target: string, n: Node)
    ensures forall c :: c in NodeTrace(remote, mode, src, target, n).calls ==> Confined(c, src, remote.admin, target)
    decreases n
  {
    match n
    case File(p, Some(x)) => UploadWritesContent(remote, remote.admin, target, p, x);
    case Dir(p, es) => EntriesConfined(remote, mode, src, target, es);
    case _ =>
  }

  lemma {:induction false} EntriesConfined(remote: Remote, mode: UploadMode, src: RepoRef, target: string, nodes: seq<Node>)
    ensures forall c :: c in EntriesTrace(remote, mode, src, target, nodes).calls ==> Confined(c, src, remote.admin, target)
    decreases nodes
  {
    if nodes != [] {
      NodeConfined(remote, mode, src, target, nodes[0]);
      EntriesConfined(remote, mode, src, target, nodes[1..]);
    }
  }

  /** The whole copy reads only the source and writes only admin/target; when
      it succeeds it wrote every readable file whose probe allows a write. */
  lemma CopyCorrect(remote: Remote, src: RepoRef, target: string)
    ensures var t := CopyTrace(remote, Corrected, src, target);
      (forall c :: c in t.calls ==> Confined(c, src, remote.admin, target)) &&
      (t.result.Ok? ==> forall f :: f in FilesIn(RootListing(remote, src)) && Writable(remote, target, f.0) ==>
         Wrote(remote, t.calls, target, f.0, f.1))
  {
    var root := RootListing(remote, src);
    var walk := EntriesTrace(remote, Corrected, src, target, root);
    EntriesConfined(remote, Corrected, src, target, root);
    if walk.result.Ok? {
      EntriesCopyFiles(remote, src, target, root);
      var t := CopyTrace(remote, Corrected, src, target);
      forall f | f in FilesIn(root) && Writable(remote, target, f.0) ensures Wrote(remote, t.calls, target, f.0, f.1) {
        var c :| c in walk.calls && IsWriteOf(c, remote.admin, target, f.0, f.1) && remote.answer(c).Body?;
        assert c in t.calls;
      }
    }
  }

  /** Every probe under admin/target answers 404: the target repository
      holds no file yet, as a freshly created one does. */
  ghost predicate NoFileIn(remote: Remote, target: string)
  {
    forall p :: remote.answer(FileInfo(remote.admin, target, p)) == NotFound
  }

  /** The request writes a file. */
  predicate IsWrite(c: Call)
  {
    c.PutFile? || c.PostFile?
  }

  lemma {:induction false} NodeAsWrittenWritesNothing(remote: Remote, src: RepoRef, target: string, n: Node)
    requires NoFileIn(remote, target)
    ensures var t := NodeTrace(remote, AsWritten, src, target, n);
      t.result.Ok? && forall c :: c in t.calls ==> !IsWrite(c)
    decreases n
  {
    match n
    case File(p, Some(x)) => UploadAsWrittenSkipsMissingFile(remote, remote.admin, target, p, x);
    case Dir(p, es) => EntriesAsWrittenWritesNothing(remote, src, target, es);
    case _ =>
  }

  lemma {:induction false} EntriesAsWrittenWritesNothing(remote: Remote, src: RepoRef, target: string, nodes: seq<Node>)
    requires NoFileIn(remote, target)
    ensures var t := EntriesTrace(remote, AsWritten, src, target, nodes);
      t.result.Ok? && forall c :: c in t.calls ==> !IsWrite(c)
    decreases nodes
  {
    if nodes != [] {
      NodeAsWrittenWritesNothing(remote, src, target, nodes[0]);
      EntriesAsWrittenWritesNothing(remote, src, target, nodes[1..]);
    }
  }

  /** The copy as written into a repository that holds no file yet reports
      success and sends no write at all, whatever the template holds: every
      probe answers 404, which the upload as written treats as nothing to do.
      The corrected copy writes every readable file there (CopyCorrect). */
  lemma CopyAsWrittenWritesNothing(remote: Remote, src: RepoRef, target: string)
    requires NoFileIn(remote, target)
    ensures var t := CopyTrace(remote, AsWritten, src, target);
      t.result.Ok? && forall c :: c in t.calls ==> !IsWrite(c)
  {
    EntriesAsWrittenWritesNothing(remote, src, target, RootListing(remote, src));
  }

  /** The walk of a prefix extends entry by entry while no entry has failed. */
  lemma {:induction false} EntriesPrefix(remote: Remote, mode: UploadMode, src: RepoRef, target: string, nodes: seq<Node>, i: nat)
    requires i < |nodes| && EntriesTrace(remote, mode, src, target, nodes[..i]).result.Ok?
    ensures var pre, n := EntriesTrace(remote, mode, src, target, nodes[..i]), NodeTrace(remote, mode, src, target, nodes[i]);
      EntriesTrace(remote, mode, src, target, nodes[..i + 1]) == Trace(pre.calls + n.calls, n.result)
  {
    if i == 0 {
      assert nodes[..0] == [] && nodes[..1] == [nodes[0]];
      EntriesOne(remote, mode, src, target, nodes[0]);
    } else {
      var head := NodeTrace(remote, mode, src, target, nodes[0]);
      var n := NodeTrace(remote, mode, src, target, nodes[i]);
      assert nodes[..i + 1][0] == nodes[0] && nodes[..i][0] == nodes[0];
      assert nodes[..i + 1][1..] == nodes[1..][..i];
      assert nodes[..i][1..] == nodes[1..][..i - 1];
      assert nodes[1..][i - 1] == nodes[i];
      EntriesPrefix(remote, mode, src, target, nodes[1..], i - 1);
      var before := EntriesTrace(remote, mode, src, target, nodes[1..][..i - 1]);
      assert head.calls + (before.calls + n.calls) == (head.calls + before.calls) + n.calls;
    }
  }

  /** A listing of one entry walks just that entry. */
  lemma EntriesOne(remote: Remote, mode: UploadMode, src: RepoRef, target: string, n: Node)
    ensures EntriesTrace(remote, mode, src, target, [n]) == NodeTrace(remote, mode, src, target, n)
  {
    var t := NodeTrace(remote, mode, src, target, n);
    assert [n][1..] == [];
    assert t.calls + [] == t.calls;
    if t.result.Ok? {
      assert t.result.value == ();
    }
  }

  /** Once a prefix has failed, the rest of the listing is not visited. */
  lemma {:induction false} EntriesStopAtFailure(remote: Remote, mode: UploadMode, src: RepoRef, target: string, nodes: seq<Node>, i: nat)
    requires i <= |nodes| && EntriesTrace(remote, mode, src, target, nodes[..i]).result.Err?
    ensures EntriesTrace(remote, mode, src, target, nodes) == EntriesTrace(remote, mode, src, target, nodes[..i])
  {
    if i < |nodes| {
      assert i > 0;
      assert nodes[..i][0] == nodes[0];
      assert nodes[..i][1..] == nodes[1..][..i - 1];
      if NodeTrace(remote, mode, src, target, nodes[0]).result.Ok? {
        EntriesStopAtFailure(remote, mode, src, target, nodes[1..], i - 1);
      }
    } else {
      assert nodes[..i] == nodes;
    }
  }

  // ---------------------------------------------------------------- createMissionRepository

  /** Java's case-insensitive character comparison, as seen from a lower-case
      ASCII letter: the letters it is equal to are its upper-case form and,
      for i, s and k, the dotless i, the dotted capital I, the long s and the
      Kelvin sign. */
  function FoldCase(c: char): char
  {
    if 'A' <= c <= 'Z' then (c as int + 32) as char
    else if c == '\U{0131}' || c == '\U{0130}' then 'i'
    else if c == '\U{017F}' then 's'
    else if c == '\U{212A}' then 'k'
    else c
  }

  /** equalsIgnoreCase against a word of lower-case ASCII letters. */
  predicate MatchesIgnoringCase(s: string, word: string)
  {
    |s| == |word| && forall i :: 0 <= i < |s| ==> FoldCase(s[i]) == word[i]
  }

  /** The template repository for a language, tried in the source's order. */
  function TemplateFor(remote: Remote, language: string): (t: Option<RepoRef>)
    ensures MatchesIgnoringCase(language, "javascript") ==> t == Some(remote.jsTemplate)
    ensures !MatchesIgnoringCase(language, "javascript") && MatchesIgnoringCase(language, "python") ==>
      t == Some(remote.pythonTemplate)
    ensures t.None? <==> !MatchesIgnoringCase(language, "javascript") && !MatchesIgnoringCase(language, "python")
  {
    if MatchesIgnoringCase(language, "javascript") then Some(remote.jsTemplate)
    else if MatchesIgnoringCase(language, "python") then Some(remote.pythonTemplate)
    else None
  }

  /** A language name is accepted in any letter case. */
  lemma TemplateIgnoresCase(remote: Remote)
    ensures TemplateFor(remote, "JavaScript") == Some(remote.jsTemplate)
    ensures TemplateFor(remote, "PYTHON") == Some(remote.pythonTemplate)
    ensures TemplateFor(remote, "java").None?
  {
  }

  /** Provisioning a working repository from a template: create the private
      empty repository, copy the template into it, grant the user write
      access; the result is the new repository's clone URL. */
  function ProvisionTrace(remote: Remote, mode: UploadMode, repo: string, template: RepoRef, user: string): Trace<string>
  {
    var create := CreateRepo(repo, true);
    var url := CreateRepoOutcome(remote.answer(create));
    if url.Err? then Trace([create], Err(url.error))
    else
      var copy := CopyTrace(remote, mode, template, repo);
      if copy.result.Err? then Trace([create] + copy.calls, Err(copy.result.error))
      else
        var grant := AddCollaborator(remote.admin, repo, user, "write");
        var granted := CollaboratorOutcome(remote.answer(grant));
        Trace([create] + copy.calls + [grant], if granted.Err? then Err(granted.error) else Ok(url.value))
  }

  /** createMissionRepository: choose the template, then provision a
      repository named exactly after the mission. */
  function MissionRepoTrace(remote: Remote, mode: UploadMode, missionId: string, language: string, user: string): Trace<string>
  {
    match TemplateFor(remote, language)
    case None => Trace([], Err(IllegalArgument))
    case Some(template) => ProvisionTrace(remote, mode, missionId, template, user)
  }

  /** An unsupported language is refused before any request; a successful
      provisioning sent the create, the whole copy and the grant, in that
      order, and returns the URL the create answered with. */
  lemma MissionRepoOrder(remote: Remote, mode: UploadMode, missionId: string, language: string, user: string)
    ensures TemplateFor(remote, language).None? ==> MissionRepoTrace(remote, mode, missionId, language, user) == Trace([], Err(IllegalArgument))
    ensures var t := MissionRepoTrace(remote, mode, missionId, language, user);
      t.result.Ok? ==>
        var template := TemplateFor(remote, language).value;
        var create := CreateRepo(missionId, true);
        t.calls == [create] + CopyTrace(remote, mode, template, missionId).calls + [AddCollaborator(remote.admin, missionId, user, "write")] &&
        remote.answer(create) == Body(Text(t.result.value))
  {
  }

  /** Whatever fails, the first request of a provisioning is the create. */
  lemma ProvisionStartsWithCreate(remote: Remote, mode: UploadMode, repo: string, template: RepoRef, user: string)
    ensures var t := ProvisionTrace(remote, mode, repo, template, user);
      |t.calls| >= 1 && t.calls[0] == CreateRepo(repo, true) &&
      (t.result.Err? ==> t.result.error == ExternalService || t.result.error == RemoteCallFailed)
  {
  }

  /** Provisioning as written into a repository that holds no file yet
      writes no file: the create and the grant are not writes, and neither is
      any request of the copy. */
  lemma ProvisionAsWrittenWritesNothing(remote: Remote, repo: string, template: RepoRef, user: string)
    requires NoFileIn(remote, repo)
    ensures forall c :: c in ProvisionTrace(remote, AsWritten, repo, template, user).calls ==> !IsWrite(c)
  {
    CopyAsWrittenWritesNothing(remote, template, repo);
  }

  // ---------------------------------------------------------------- the gateway object

  class Gateway {
    const remote: Remote
    /** Which uploadFile this gateway runs. */
    const mode: UploadMode
    /** Every request sent so far, oldest first. */
    var calls: seq<Call>

    constructor (remote: Remote, mode: UploadMode)
      ensures this.remote == remote && this.mode == mode && calls == []
    {
      this.remote := remote;
      this.mode := mode;
      calls := [];
    }

    method Send(c: Call) returns (reply: Reply)
      modifies this
      ensures calls == old(calls) + [c] && reply == remote.answer(c)
    {
      calls := calls + [c];
      reply := remote.answer(c);
    }

    method CreateGiteaUser(username: Option<string>, email: Option<string>, password: Option<string>) returns (r: Result<int>)
      modifies this
      ensures calls == old(calls) + [CreateUser(username, email, password)]
      ensures r == CreateUserOutcome(remote.answer(CreateUser(username, email, password)))
    {
      var reply := Send(CreateUser(username, email, password));
      r := CreateUserOutcome(reply);
    }

    method DeleteGiteaUser(username: string) returns (r: Result<()>)
      modifies this
      ensures calls == old(calls) + [DeleteUser(username)]
      ensures r == DeleteOutcome(remote.answer(DeleteUser(username)))
    {
      var reply := Send(DeleteUser(username));
      r := DeleteOutcome(reply);
    }

    method CreateEmptyRepository(repo: string, isPrivate: bool) returns (r: Result<string>)
      modifies this
      ensures calls == old(calls) + [CreateRepo(repo, isPrivate)]
      ensures r == CreateRepoOutcome(remote.answer(CreateRepo(repo, isPrivate)))
    {
      var reply := Send(CreateRepo(repo, isPrivate));
      r := CreateRepoOutcome(reply);
    }

    method DeleteRepository(owner: string, repo: string) returns (r: Result<()>)
      modifies this
      ensures calls == old(calls) + [DeleteRepo(owner, repo)]
      ensures r == DeleteOutcome(remote.answer(DeleteRepo(owner, repo)))
    {
      var reply := Send(DeleteRepo(owner, repo));
      r := DeleteOutcome(reply);
    }

    method DeleteAdminRepository(repo: string) returns (r: Result<()>)
      modifies this
      ensures calls == old(calls) + [DeleteRepo(remote.admin, repo)]
      ensures r == DeleteOutcome(remote.answer(DeleteRepo(remote.admin, repo)))
    {
      r := DeleteRepository(remote.admin, repo);
    }

    method GetRepository(owner: string, repo: string) returns (r: Result<bool>)
      modifies this
      ensures calls == old(calls) + [GetRepo(owner, repo)]
      ensures r == GetRepoOutcome(remote.answer(GetRepo(owner, repo)))
    {
      var reply := Send(GetRepo(owner, repo));
      r := GetRepoOutcome(reply);
    }

    method GrantCollaborator(repo: string, user: string, permission: string) returns (r: Result<()>)
      modifies this
      ensures calls == old(calls) + [AddCollaborator(remote.admin, repo, user, permission)]
      ensures r == CollaboratorOutcome(remote.answer(AddCollaborator(remote.admin, repo, user, permission)))
    {
      var reply := Send(AddCollaborator(remote.admin, repo, user, permission));
      r := CollaboratorOutcome(reply);
    }

    method UploadFile(owner: string, repo: string, path: string, content: string) returns (r: Result<Option<string>>)
      modifies this
      ensures calls == old(calls) + UploadTrace(remote, mode, owner, repo, path, content).calls
      ensures r == UploadTrace(remote, mode, owner, repo, path, content).result
    {
      var info := Send(FileInfo(owner, repo, path));
      if info.Body? && !info.field.Absent? {
        var put := Send(PutFile(owner, repo, path, content, info.field));
        if put.NotFound? {
          var post := Send(PostFile(owner, repo, path, content));
          r := WriteOutcome(post, RemoteCallFailed);
        } else {
          r := WriteOutcome(put, ExternalService);
        }
      } else if info.NotFound? && mode == Corrected {
        var post := Send(PostFile(owner, repo, path, content));
        r := WriteOutcome(post, RemoteCallFailed);
      } else if info.Conflict? || info.Failed? {
        r := Err(ExternalService);
      } else {
        r := Ok(None);
      }
    }

    /** One listing entry: a file is read and, if readable, uploaded; a
        directory is listed and walked. */
    method CopyEntry(src: RepoRef, target: string, n: Node) returns (r: Result<()>)
      modifies this
      ensures calls == old(calls) + NodeTrace(remote, mode, src, target, n).calls
      ensures r == NodeTrace(remote, mode, src, target, n).result
      decreases n
    {
      r := Ok(());
      match n {
        case File(p, content) =>
          calls := calls + [FileContent(src.0, src.1, p)];
          if content.Some? {
            var up := UploadFile(remote.admin, target, p, content.value);
            if up.Err? {
              r := Err(up.error);
            }
          }
        case Dir(p, es) =>
          calls := calls + [ListContents(src.0, src.1, p)];
          r := CopyListing(src, target, es);
        case UnreadableDir(p) =>
          calls := calls + [ListContents(src.0, src.1, p)];
        case Other(_) =>
      }
    }

    /** The loop shared by copyRepositoryContents and copyDirectory, over one
        listing of the source repository. */
    method CopyListing(src: RepoRef, target: string, nodes: seq<Node>) returns (r: Result<()>)
      modifies this
      ensures calls == old(calls) + EntriesTrace(remote, mode, src, target, nodes).calls
      ensures r == EntriesTrace(remote, mode, src, target, nodes).result
      decreases nodes, 2
    {
      var i := 0;
      while i < |nodes|
        invariant 0 <= i <= |nodes|
        invariant EntriesTrace(remote, mode, src, target, nodes[..i]).result.Ok?
        invariant calls == old(calls) + EntriesTrace(remote, mode, src, target, nodes[..i]).calls
      {
        var step := CopyNext(old(calls), src, target, nodes, i);
        if step.Err? {
          EntriesStopAtFailure(remote, mode, src, target, nodes, i + 1);
          return step;
        }
        i := i + 1;
      }
      assert nodes[..i] == nodes;
      assert EntriesTrace(remote, mode, src, target, nodes).result.value == ();
      r := Ok(());
    }

    /** One turn of CopyListing: copy entry i after the first i have been
        copied without failure. */
    method CopyNext(ghost base: seq<Call>, src: RepoRef, target: string, nodes: seq<Node>, i: nat) returns (r: Result<()>)
      requires i < |nodes| && EntriesTrace(remote, mode, src, target, nodes[..i]).result.Ok?
      requires calls == base + EntriesTrace(remote, mode, src, target, nodes[..i]).calls
      modifies this
      ensures calls == base + EntriesTrace(remote, mode, src, target, nodes[..i + 1]).calls
      ensures r == EntriesTrace(remote, mode, src, target, nodes[..i + 1]).result
      decreases nodes, 1
    {
      EntriesPrefix(remote, mode, src, target, nodes, i);
      r := CopyEntry(src, target, nodes[i]);
    }

    method CopyRepositoryContents(srcOwner: string, srcRepo: string, target: string) returns (r: Result<()>)
      modifies this
      ensures calls == old(calls) + CopyTrace(remote, mode, (srcOwner, srcRepo), target).calls
      ensures r == CopyTrace(remote, mode, (srcOwner, srcRepo), target).result
    {
      calls := calls + [ListContents(srcOwner, srcRepo, "")];
      var walk := CopyListing((srcOwner, srcRepo), target, RootListing(remote, (srcOwner, srcRepo)));
      r := if walk.Err? then Err(ExternalService) else Ok(());
    }

    /** Create, copy and grant, stopping at the first failure. */
    method Provision(repo: string, template: RepoRef, user: string) returns (r: Result<string>)
      modifies this
      ensures calls == old(calls) + ProvisionTrace(remote, mode, repo, template, user).calls
      ensures r == ProvisionTrace(remote, mode, repo, template, user).result
    {
      var url := CreateEmptyRepository(repo, true);
      if url.Err? {
        return Err(url.error);
      }
      var copied := CopyRepositoryContents(template.0, template.1, repo);
      if copied.Err? {
        return Err(copied.error);
      }
      var granted := GrantCollaborator(repo, user, "write");
      r := if granted.Err? then Err(granted.error) else Ok(url.value);
    }

    method CreateMissionRepository(missionId: string, language: string, user: string) returns (r: Result<string>)
      modifies this
      ensures calls == old(calls) + MissionRepoTrace(remote, mode, missionId, language, user).calls
      ensures r == MissionRepoTrace(remote, mode, missionId, language, user).result
    {
      var template := TemplateFor(remote, language);
      if template.None? {
        return Err(IllegalArgument);
      }
      r := Provision(missionId, template.value, user);
    }
  }
}
