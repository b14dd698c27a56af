/**
  The deterministic parts of the git helpers (git_utils.py): the commit
  message tag, the short sha, the clone directory name, the file index shown
  to the editor and the token injected into a remote URL. Cloning, committing
  and pushing themselves are not modelled; their results are inputs.
*/
module GitUtils {
  import opened Wrappers
  import opened PyText
  import opened PyPath

  const AgentTag := "[AI-AGENT]"

  /** The message `commit_and_push` commits: tagged with `[AI-AGENT] ` unless it already starts with the tag. */
  function PrefixMessage(message: string): (r: string)
    ensures StartsWith(r, AgentTag)
    ensures StartsWith(message, AgentTag) ==> r == message
    ensures !StartsWith(message, AgentTag) ==> r == AgentTag + " " + message
  {
    if StartsWith(message, AgentTag) then message else AgentTag + " " + message
  }

  /** A tagged message is never tagged twice. */
  lemma PrefixOnce(message: string)
    ensures PrefixMessage(PrefixMessage(message)) == PrefixMessage(message)
  {
  }

  /** The sha `commit_and_push` returns: the first seven characters of the commit's hex sha. */
  function ShortSha(hexsha: string): (r: string)
    ensures r <= hexsha
    ensures |r| == if |hexsha| < 7 then |hexsha| else 7
  {
    Take(hexsha, 7)
  }

  /** The repository name of a URL path: its last segment, trailing "/" ignored, with every ".git" removed. */
  function RepoName(urlPath: string): (r: string)
    ensures '/' !in r
  {
    ReplaceKeepsCharOut(Name(urlPath), ".git", "", '/');
    Replace(Name(urlPath), ".git", "")
  }

  /** The directory `get_clone_path` puts a run's clone in, under the clones root: `{run_id}_{repo_name}`. */
  function ClonePathName(urlPath: string, runId: string): (r: string)
    ensures |r| > |runId| && r[..|runId| + 1] == runId + "_"
    ensures '/' in r ==> '/' in runId
  {
    runId + "_" + RepoName(urlPath)
  }

  /** Dropping ".git" from a name that has no dot removes exactly the trailing ".git". */
  lemma DropGitSuffix(name: string)
    requires '.' !in name
    ensures Replace(name + ".git", ".git", "") == name
    ensures Replace(name, ".git", "") == name
  {
    var s := name + ".git";
    assert OccursAt(s, ".git", |name|);
    forall i | 0 <= i < |name|
      ensures !OccursAt(s, ".git", i) && !OccursAt(name, ".git", i)
    {
      assert s[i] == name[i];
    }
    assert IndexOf(s, ".git") == |name|;
    assert s[..|name|] == name && s[|name| + 4..] == "";
    assert IndexOf(name, ".git") == -1;
  }

  /** A URL path ending in `{name}.git` names the repository `name`. */
  lemma RepoNameOfGitLeaf(prefix: string, name: string)
    requires name != [] && '/' !in name && '.' !in name
    ensures RepoName(prefix + "/" + name + ".git") == name
  {
    var leaf := name + ".git";
    var p := prefix + "/" + leaf;
    assert Name(p) == leaf by { NameOfLast(prefix, leaf); }
    assert Replace(leaf, ".git", "") == name by { DropGitSuffix(name); }
    assert RepoName(p) == name;
    assert prefix + "/" + name + ".git" == p;
  }

  /** A URL path ending in `{name}` or `{name}/` names the repository `name`. */
  lemma RepoNameOfLeaf(prefix: string, name: string)
    requires name != [] && '/' !in name && '.' !in name
    ensures RepoName(prefix + "/" + name) == name
    ensures RepoName(prefix + "/" + name + "/") == name
  {
    NameOfLast(prefix, name);
    DropGitSuffix(name);
  }

  /** The clone directory of a URL path is the run id, "_" and the repository name. */
  lemma ClonePathOfName(urlPath: string, runId: string, name: string)
    requires RepoName(urlPath) == name
    ensures ClonePathName(urlPath, runId) == runId + "_" + name
  {
  }

  /** For `https://host/<owner>/<name>.git`, with or without ".git" or a trailing "/", the clone directory is `{run_id}_{name}`. */
  lemma ClonePathOfRepoUrl(runId: string, owner: string, name: string)
    requires name != [] && '/' !in name && '.' !in name
    ensures ClonePathName("/" + owner + "/" + name + ".git", runId) == runId + "_" + name
    ensures ClonePathName("/" + owner + "/" + name, runId) == runId + "_" + name
    ensures ClonePathName("/" + owner + "/" + name + "/", runId) == runId + "_" + name
  {
    RepoNameOfGitLeaf("/" + owner, name);
    RepoNameOfLeaf("/" + owner, name);
    ClonePathOfName("/" + owner + "/" + name + ".git", runId, name);
    ClonePathOfName("/" + owner + "/" + name, runId, name);
    ClonePathOfName("/" + owner + "/" + name + "/", runId, name);
  }

  /** Directories `get_all_files` never descends into. */
  const SkipDirs: set<string> := {".git", "node_modules", "__pycache__", ".venv", "venv", ".tox"}

  /** The default extension list of `get_all_files`. */
  const IndexedExtensions: seq<string> := [".py", ".js", ".ts", ".json", ".yaml", ".yml", ".md"]

  /**
    One path the working-tree walk yields, in walk order: its components
    relative to the clone root, whether it is a regular file, and its text
    (`None` when it cannot be read).
  */
  datatype TreeItem = TreeItem(parts: seq<string>, isFile: bool, content: Option<string>)

  /** One entry of the editor's file index. */
  datatype IndexedFile = IndexedFile(path: string, content: string)

  /** The suffix of the item's own name. */
  function ItemSuffix(item: TreeItem): string {
    if item.parts == [] then "" else NameSuffix(item.parts[|item.parts| - 1])
  }

  /**
    An item `get_all_files` tries to read: a file with a listed suffix none
    of whose absolute components is a skip directory. `rglob` yields
    absolute paths, so the components `root` of the clone directory itself
    are tested as well as the item's own.
  */
  predicate Indexable(root: seq<string>, item: TreeItem, extensions: seq<string>) {
    item.isFile && !AnyIn(root + item.parts, SkipDirs) && ItemSuffix(item) in extensions
  }

  /** The index entries of the first `k` walk items. */
  function IndexUpTo(root: seq<string>, tree: seq<TreeItem>, extensions: seq<string>, k: nat): seq<IndexedFile>
    requires k <= |tree|
  {
    if k == 0 then []
    else
      var item := tree[k - 1];
      IndexUpTo(root, tree, extensions, k - 1)
        + if Indexable(root, item, extensions) && item.content.Some? then [IndexedFile(Join("/", item.parts), item.content.value)] else []
  }

  /** `get_all_files`: the readable indexable files, in walk order, with "/"-joined relative paths. */
  method GetAllFiles(root: seq<string>, tree: seq<TreeItem>, extensions: seq<string>) returns (results: seq<IndexedFile>)
    ensures results == IndexUpTo(root, tree, extensions, |tree|)
  {
    results := [];
    var k := 0;
    while k < |tree|
      invariant 0 <= k <= |tree|
      invariant results == IndexUpTo(root, tree, extensions, k)
    {
      var item := tree[k];
      if item.isFile && !AnyIn(root + item.parts, SkipDirs) && ItemSuffix(item) in extensions {
        match item.content {
          case Some(text) =>
            results := results + [IndexedFile(Join("/", item.parts), text)];
          case None =>
        }
      }
      k := k + 1;
    }
  }

  /** Every indexed file is a readable walk item with a listed suffix and no skip-directory component. */
  lemma {:induction false} IndexSound(root: seq<string>, tree: seq<TreeItem>, extensions: seq<string>, k: nat, f: IndexedFile)
    requires k <= |tree| && f in IndexUpTo(root, tree, extensions, k)
    ensures exists j :: 0 <= j < k && Indexable(root, tree[j], extensions) && tree[j].content == Some(f.content) && f.path == Join("/", tree[j].parts)
  {
    if f in IndexUpTo(root, tree, extensions, k - 1) {
      IndexSound(root, tree, extensions, k - 1, f);
    }
  }

  /** Every readable indexable walk item is indexed. */
  lemma {:induction false} IndexComplete(root: seq<string>, tree: seq<TreeItem>, extensions: seq<string>, k: nat, j: nat)
    requires j < k <= |tree| && Indexable(root, tree[j], extensions) && tree[j].content.Some?
    ensures IndexedFile(Join("/", tree[j].parts), tree[j].content.value) in IndexUpTo(root, tree, extensions, k)
  {
    if j < k - 1 {
      IndexComplete(root, tree, extensions, k - 1, j);
      IndexUpToGrows(root, tree, extensions, k, IndexedFile(Join("/", tree[j].parts), tree[j].content.value));
    } else {
      IndexedAtItsStep(root, tree, extensions, j);
    }
  }

  /** A readable indexable item is the last entry once the walk reaches it. */
  lemma IndexedAtItsStep(root: seq<string>, tree: seq<TreeItem>, extensions: seq<string>, j: nat)
    requires j < |tree| && Indexable(root, tree[j], extensions) && tree[j].content.Some?
    ensures IndexedFile(Join("/", tree[j].parts), tree[j].content.value) in IndexUpTo(root, tree, extensions, j + 1)
  {
  }

  /** An entry of the first `k - 1` items stays an entry of the first `k`. */
  lemma IndexUpToGrows(root: seq<string>, tree: seq<TreeItem>, extensions: seq<string>, k: nat, e: IndexedFile)
    requires 0 < k <= |tree| && e in IndexUpTo(root, tree, extensions, k - 1)
    ensures e in IndexUpTo(root, tree, extensions, k)
  {
  }

  /** A clone below a skipped directory indexes nothing. */
  lemma {:induction false} SkippedRootIndexesNothing(root: seq<string>, tree: seq<TreeItem>, extensions: seq<string>, k: nat)
    requires AnyIn(root, SkipDirs) && k <= |tree|
    ensures IndexUpTo(root, tree, extensions, k) == []
  {
    if k > 0 {
      AnyInAppend(root, tree[k - 1].parts, SkipDirs);
      SkippedRootIndexesNothing(root, tree, extensions, k - 1);
    }
  }

  /** The six fields `urlparse` splits a URL into. */
  datatype UrlParts = UrlParts(scheme: string, netloc: string, path: string, params: string, query: string, fragment: string)

  /** `s.partition(c)`: the text before the first `c`, whether `c` occurs, and the text after it. */
  function PartitionChar(s: string, c: char): (r: (string, bool, string))
    ensures r.1 <==> c in s
    ensures r.1 ==> s == r.0 + [c] + r.2 && c !in r.0
    ensures !r.1 ==> r.0 == s && r.2 == ""
  {
    if s == [] then ("", false, "")
    else if s[0] == c then ("", true, s[1..])
    else
      var (before, found, after) := PartitionChar(s[1..], c);
      assert s == [s[0]] + s[1..];
      ([s[0]] + before, found, after)
  }

  /** The text after the last `c` of `s`, or all of `s` when `c` does not occur (`s.rpartition(c)[2]`). */
  function AfterLast(s: string, c: char): (r: string)
    ensures c !in r
    ensures c !in s ==> r == s
  {
    match RSplitOnceChar(s, c)
    case Some((_, after)) => after
    case None => s
  }

  /**
    The host `urlparse` finds in a network location (`_hostinfo[0]`): the
    text after the last "@", then inside the brackets when there is a "[",
    otherwise before the first ":".
  */
  function HostPart(netloc: string): string {
    var hostinfo := AfterLast(netloc, '@');
    var (_, bracket, bracketed) := PartitionChar(hostinfo, '[');
    if bracket then PartitionChar(bracketed, ']').0 else PartitionChar(hostinfo, ':').0
  }

  /** `urlparse(url).hostname`: the host lower-cased up to any "%" zone, or `None` when it is empty. */
  function Hostname(netloc: string): Option<string> {
    var host := HostPart(netloc);
    if host == "" then None
    else
      var (name, percent, zone) := PartitionChar(host, '%');
      Some(Lower(name) + (if percent then "%" else "") + zone)
  }

  /** How an f-string renders the parsed hostname; a URL without one renders as "None". */
  function HostText(hostname: Option<string>): string {
    match hostname
    case Some(h) => h
    case None => "None"
  }

  /** `_inject_pat`: the network location becomes `{pat}@{hostname}`; every other field is kept. */
  function InjectPat(url: UrlParts, pat: string): (r: UrlParts)
    ensures r.netloc == pat + "@" + HostText(Hostname(url.netloc))
    ensures r.(netloc := url.netloc) == url
  {
    url.(netloc := pat + "@" + HostText(Hostname(url.netloc)))
  }

  /** Partitioning at the first `c` of `a + [c] + b`, when `a` has none, gives back `a` and `b`. */
  lemma {:induction false} PartitionCharAt(a: string, c: char, b: string)
    requires c !in a
    ensures PartitionChar(a + [c] + b, c) == (a, true, b)
  {
    if a != [] {
      PartitionCharAt(a[1..], c, b);
      assert (a + [c] + b)[0] == a[0] != c;
      assert (a + [c] + b)[1..] == a[1..] + [c] + b;
      assert a == [a[0]] + a[1..];
    } else {
      assert a + [c] + b == [c] + b;
    }
  }

  /** The text after the one "@" of `a + "@" + b` when `b` has none. */
  lemma AfterLastAt(a: string, b: string)
    requires '@' !in b
    ensures AfterLast(a + "@" + b, '@') == b
  {
    var s := a + "@" + b;
    var i := LastIndexOfChar(s, '@');
    assert s[|a|] == '@';
    assert i == |a|;
    assert s[i + 1..] == b;
  }

  /** A network location's host part ignores what comes before its last "@". */
  lemma HostPartAfterAt(a: string, b: string)
    requires '@' !in b
    ensures HostPart(a + "@" + b) == HostPart(b)
  {
    AfterLastAt(a, b);
  }

  /** The host part of `{host}:{port}`, when neither has a "@" or "[" and the host no ":". */
  lemma HostPartPort(host: string, port: string)
    requires '@' !in host && '[' !in host && ':' !in host
    requires '@' !in port && '[' !in port
    ensures HostPart(host + ":" + port) == host
  {
    var hostinfo := host + ":" + port;
    assert '@' !in hostinfo && '[' !in hostinfo;
    assert hostinfo == host + [':'] + port;
    PartitionCharAt(host, ':', port);
  }

  /** The host part of `{user}@{host}:{port}`. */
  lemma HostPartOfUserInfo(user: string, host: string, port: string)
    requires '@' !in host && '[' !in host && ':' !in host
    requires '@' !in port && '[' !in port
    ensures HostPart(user + "@" + host + ":" + port) == host
  {
    var hostinfo := host + ":" + port;
    assert user + "@" + host + ":" + port == user + "@" + hostinfo;
    assert '@' !in hostinfo;
    HostPartAfterAt(user, hostinfo);
    HostPartPort(host, port);
  }

  /** A bare host with no "@", "[" or ":" is its own host part. */
  lemma HostPartBare(host: string)
    requires '@' !in host && '[' !in host && ':' !in host
    ensures HostPart(host) == host
  {
  }

  /** The host name depends on the network location only through its host part. */
  lemma HostnameOfHostPart(a: string, b: string)
    requires HostPart(a) == HostPart(b)
    ensures Hostname(a) == Hostname(b)
  {
  }

  /**
    Any earlier user information or port is dropped: a network location
    `{user}@{host}:{port}` gives what the bare host gives.
  */
  lemma InjectPatForgetsNetloc(url: UrlParts, user: string, host: string, port: string, pat: string)
    requires '@' !in host && '[' !in host && ':' !in host
    requires '@' !in port && '[' !in port
    ensures InjectPat(url.(netloc := user + "@" + host + ":" + port), pat) == InjectPat(url.(netloc := host), pat)
  {
    var netloc := user + "@" + host + ":" + port;
    assert HostPart(netloc) == host by { HostPartOfUserInfo(user, host, port); }
    assert HostPart(host) == host by { HostPartBare(host); }
    HostnameOfHostPart(netloc, host);
  }

  /** Lower-casing neither adds nor removes a given non-letter. */
  lemma LowerKeepsOut(s: string, c: char)
    requires !IsAsciiUpper(c) && !IsAsciiLower(c)
    ensures c in Lower(s) <==> c in s
  {
    if c in Lower(s) {
      var i :| 0 <= i < |s| && Lower(s)[i] == c;
      assert LowerChar(s[i]) == c;
    }
    if c in s {
      var i :| 0 <= i < |s| && s[i] == c;
      assert Lower(s)[i] == c;
    }
  }

  /** A host name has no "@". */
  lemma HostnameLacksAt(netloc: string)
    requires Hostname(netloc).Some?
    ensures '@' !in Hostname(netloc).value
  {
    var host := HostPart(netloc);
    assert '@' !in AfterLast(netloc, '@');
    assert '@' !in host;
    var (name, percent, zone) := PartitionChar(host, '%');
    LowerKeepsOut(name, '@');
  }

  /** A host name with no ":" or "[" parses back to itself. */
  lemma HostnameOfHostname(netloc: string)
    requires Hostname(netloc).Some?
    requires ':' !in Hostname(netloc).value && '[' !in Hostname(netloc).value
    ensures Hostname(Hostname(netloc).value) == Hostname(netloc)
  {
    var h := Hostname(netloc).value;
    HostnameLacksAt(netloc);
    assert HostPart(h) == h;
    var (name, percent, zone) := PartitionChar(HostPart(netloc), '%');
    LowerIdempotent(name);
    LowerKeepsOut(name, '%');
    if percent {
      assert h == Lower(name) + ['%'] + zone;
      PartitionCharAt(Lower(name), '%', zone);
    } else {
      assert h == Lower(name);
    }
  }

  /** `{a}@{b}`, where neither part has a "@", has its one "@" right after `a`. */
  lemma OneAtBetween(a: string, b: string)
    requires '@' !in a && '@' !in b
    ensures var n := a + "@" + b; forall i :: 0 <= i < |n| ==> (n[i] == '@' <==> i == |a|)
  {
    var n := a + "@" + b;
    forall i | 0 <= i < |n|
      ensures n[i] == '@' <==> i == |a|
    {
      if i < |a| {
        assert n[i] == a[i];
      } else if i > |a| {
        assert n[i] == b[i - |a| - 1];
      }
    }
  }

  /**
    For a token with no "@" and a host name with no ":" or "[", the new
    network location holds exactly one "@", right after the token, and
    names the same host.
  */
  lemma InjectPatKeepsHost(url: UrlParts, pat: string)
    requires Hostname(url.netloc).Some?
    requires '@' !in pat && ':' !in Hostname(url.netloc).value && '[' !in Hostname(url.netloc).value
    ensures var n := InjectPat(url, pat).netloc;
      && (forall i :: 0 <= i < |n| ==> (n[i] == '@' <==> i == |pat|))
      && Hostname(n) == Hostname(url.netloc)
  {
    var h := Hostname(url.netloc).value;
    var n := InjectPat(url, pat).netloc;
    assert n == pat + "@" + h;
    assert '@' !in h by { HostnameLacksAt(url.netloc); }
    OneAtBetween(pat, h);
    assert HostPart(n) == HostPart(h) by { HostPartAfterAt(pat, h); }
    HostnameOfHostPart(n, h);
    HostnameOfHostname(url.netloc);
  }
}
