/**
 * `GitInfo`: commit metadata read from `git` and the formatting of a commit
 * subject line.
 *
 * Every `execSync('git …').trim()` call is a query to the `Git` table,
 * which holds the trimmed output of each command that succeeds; a command
 * missing from it fails (and `execSync` throws). `HEAD` is `HEAD~0`.
 *
 * The subject is parsed with `^(\w+)(\(.+\))?: (.+)$`, a loose reading of
 * the header of a Conventional Commits 1.0.0 message (`type(scope):
 * description`); the `!` breaking-change marker is not recognised.
 */
module GitInfo {
  import opened Wrappers
  import opened Text

  datatype GitCommit = GitCommit(hash: string, shortHash: string, message: string, author: string, date: string, branch: string)

  /** The git commands the code runs; `rev` stands for the revision `HEAD~rev`. */
  datatype GitQuery =
    | RevParse(rev: nat)        // git rev-parse HEAD~rev
    | RevParseShort(rev: nat)   // git rev-parse --short HEAD~rev
    | Subject(rev: nat)         // git log -1 --pretty=format:"%s" HEAD~rev
    | AuthorName(rev: nat)      // git log -1 --pretty=format:"%an" HEAD~rev
    | AuthorDate(rev: nat)      // git log -1 --pretty=format:"%ad" --date=format:"%Y-%m-%d %H:%M:%S" HEAD~rev
    | CurrentBranch             // git rev-parse --abbrev-ref HEAD
    | RemoteOriginUrl           // git config --get remote.origin.url

  type Git = map<GitQuery, string>

  /** Running one command: its trimmed output, or `None` when it fails. */
  function Run(git: Git, q: GitQuery): (r: Option<string>)
    ensures r.Some? <==> q in git
  {
    if q in git then Some(git[q]) else None
  }

  /** The six commands that describe the commit `HEAD~i`. */
  function CommitQueries(i: nat): seq<GitQuery> {
    [RevParse(i), RevParseShort(i), Subject(i), AuthorName(i), AuthorDate(i), CurrentBranch]
  }

  /** All six commands about `HEAD~i` succeed. */
  predicate CommitReadable(git: Git, i: nat) {
    forall q :: q in CommitQueries(i) ==> q in git
  }

  /**
   * The commit `HEAD~i`, from six commands run in turn; the first that fails
   * abandons the record. The branch is always the current one, whatever `i` is.
   */
  function CommitAt(git: Git, i: nat): (r: Option<GitCommit>)
    ensures r.Some? <==> CommitReadable(git, i)
    ensures r.Some? ==> r.value.hash == Run(git, RevParse(i)).value && r.value.shortHash == Run(git, RevParseShort(i)).value
    ensures r.Some? ==> r.value.message == Run(git, Subject(i)).value && r.value.author == Run(git, AuthorName(i)).value
    ensures r.Some? ==> r.value.date == Run(git, AuthorDate(i)).value && r.value.branch == Run(git, CurrentBranch).value
  {
    var hash :- Run(git, RevParse(i));
    var shortHash :- Run(git, RevParseShort(i));
    var message :- Run(git, Subject(i));
    var author :- Run(git, AuthorName(i));
    var date :- Run(git, AuthorDate(i));
    var branch :- Run(git, CurrentBranch);
    Some(GitCommit(hash, shortHash, message, author, date, branch))
  }

  /** `getLastCommit`: the commit at `HEAD`, or `null` when a command fails. */
  function LastCommit(git: Git): Option<GitCommit> {
    CommitAt(git, 0)
  }

  /** The first `n` commits, or `None` as soon as one of them cannot be read. */
  function HistoryPrefix(git: Git, n: nat): Option<seq<GitCommit>> {
    if n == 0 then Some([])
    else
      match (HistoryPrefix(git, n - 1), CommitAt(git, n - 1))
      case (Some(prefix), Some(commit)) => Some(prefix + [commit])
      case _ => None
  }

  /** `getCommitHistory(limit)`: a failure anywhere turns the whole result into the empty list. */
  function History(git: Git, limit: nat): seq<GitCommit> {
    HistoryPrefix(git, limit).GetOr([])
  }

  predicate AllReadable(git: Git, limit: nat) {
    forall i :: 0 <= i < limit ==> CommitAt(git, i).Some?
  }

  lemma {:induction false} HistoryPrefixDefined(git: Git, n: nat)
    ensures HistoryPrefix(git, n).Some? <==> AllReadable(git, n)
  {
    if n > 0 {
      HistoryPrefixDefined(git, n - 1);
      assert HistoryPrefix(git, n).Some? <==> HistoryPrefix(git, n - 1).Some? && CommitAt(git, n - 1).Some?;
      ReadableStep(git, n);
    }
  }

  lemma ReadableStep(git: Git, n: nat)
    requires n > 0
    ensures AllReadable(git, n) <==> AllReadable(git, n - 1) && CommitAt(git, n - 1).Some?
  {
  }

  lemma {:induction false} HistoryPrefixContents(git: Git, n: nat)
    requires HistoryPrefix(git, n).Some?
    ensures |HistoryPrefix(git, n).value| == n
    ensures forall i :: 0 <= i < n ==> Some(HistoryPrefix(git, n).value[i]) == CommitAt(git, i)
  {
    if n > 0 {
      var p := HistoryPrefix(git, n - 1).value;
      var c := CommitAt(git, n - 1).value;
      HistoryPrefixContents(git, n - 1);
      assert HistoryPrefix(git, n).value == p + [c];
    }
  }

  /**
   * All or nothing: when every commit up to `limit` can be read, the history
   * has exactly `limit` entries, entry `i` being `HEAD~i`; otherwise it is
   * empty. Every entry carries the current branch.
   */
  lemma HistoryShape(git: Git, limit: nat)
    ensures AllReadable(git, limit) ==>
      |History(git, limit)| == limit &&
      forall i :: 0 <= i < limit ==> Some(History(git, limit)[i]) == CommitAt(git, i)
    ensures !AllReadable(git, limit) ==> History(git, limit) == []
    ensures forall k :: 0 <= k < |History(git, limit)| ==> History(git, limit)[k].branch == Run(git, CurrentBranch).value
  {
    HistoryPrefixDefined(git, limit);
    if AllReadable(git, limit) {
      HistoryPrefixContents(git, limit);
    }
    var h := History(git, limit);
    forall k | 0 <= k < |h|
      ensures h[k].branch == Run(git, CurrentBranch).value
    {
      assert Some(h[k]) == CommitAt(git, k);
    }
  }

  /** The last commit is the one-entry history: `null` exactly when that history is empty. */
  lemma LastCommitIsHistoryOfOne(git: Git)
    ensures History(git, 1) == (match LastCommit(git) case Some(c) => [c] case None => [])
  {
    HistoryShape(git, 1);
  }

  /**
   * `getCommitHistory`: the counting loop that pushes one commit per
   * revision and, on the first failing command, returns the empty list.
   */
  method CommitHistory(git: Git, limit: nat) returns (commits: seq<GitCommit>)
    ensures commits == History(git, limit)
  {
    commits := [];
    var i := 0;
    while i < limit
      invariant 0 <= i <= limit
      invariant HistoryPrefix(git, i) == Some(commits)
    {
      var commit := CommitAt(git, i);
      if commit.None? {
        HistoryPrefixFails(git, i + 1, limit);
        return [];
      }
      commits := commits + [commit.value];
      i := i + 1;
    }
  }

  /** Once a prefix cannot be read, no longer prefix can. */
  lemma {:induction false} HistoryPrefixFails(git: Git, n: nat, limit: nat)
    requires n <= limit && HistoryPrefix(git, n).None?
    ensures HistoryPrefix(git, limit).None?
    decreases limit - n
  {
    if n < limit {
      HistoryPrefixFails(git, n + 1, limit);
    }
  }

  datatype RepoInfo = RepoInfo(remoteUrl: Option<string>, branch: string, isGitRepo: bool)

  /** `getRepositoryInfo`: the remote and the branch, or `(null, 'unknown', false)` when either command fails. */
  function RepositoryInfo(git: Git): (r: RepoInfo)
    ensures r.isGitRepo <==> RemoteOriginUrl in git && CurrentBranch in git
    ensures r.isGitRepo ==> r.remoteUrl == Run(git, RemoteOriginUrl) && r.branch == Run(git, CurrentBranch).value
    ensures !r.isGitRepo ==> r.remoteUrl.None? && r.branch == "unknown"
  {
    match (Run(git, RemoteOriginUrl), Run(git, CurrentBranch))
    case (Some(url), Some(branch)) => RepoInfo(Some(url), branch, true)
    case _ => RepoInfo(None, "unknown", false)
  }

  // ---------------------------------------------------------------------------
  // The commit header
  // ---------------------------------------------------------------------------

  /** A header split into its three groups; `scope` is the text between the parentheses. */
  datatype Header = Header(kind: string, scope: Option<string>, description: string)

  function ScopeGroup(scope: Option<string>): string {
    match scope
    case Some(s) => "(" + s + ")"
    case None => ""
  }

  /** The text a header stands for: `type(scope): description` or `type: description`. */
  function Render(h: Header): string {
    h.kind + ScopeGroup(h.scope) + ": " + h.description
  }

  predicate AllWordChars(s: string) {
    forall i :: 0 <= i < |s| ==> IsWordChar(s[i])
  }

  /**
   * The language of `^(\w+)(\(.+\))?: (.+)$`: `m` is the header `h`, whose
   * type is one or more word characters and whose scope (if any) and
   * description are non-empty and free of line terminators.
   */
  predicate Matches(m: string, h: Header) {
    && |h.kind| >= 1 && AllWordChars(h.kind)
    && (h.scope.Some? ==> |h.scope.value| >= 1 && NoLineTerminator(h.scope.value))
    && |h.description| >= 1 && NoLineTerminator(h.description)
    && m == Render(h)
  }

  /** The length of the longest prefix of word characters. */
  function WordPrefixLength(m: string): (n: nat)
    ensures n <= |m|
    ensures forall i :: 0 <= i < n ==> IsWordChar(m[i])
    ensures n < |m| ==> !IsWordChar(m[n])
  {
    if m == [] || !IsWordChar(m[0]) then 0 else 1 + WordPrefixLength(m[1..])
  }

  /** After `(`, position `j` can close the scope group: `): ` followed by at least one character. */
  predicate ClosesScope(rest: string, j: nat) {
    j + 3 < |rest| && rest[j] == ')' && rest[j + 1] == ':' && rest[j + 2] == ' '
  }

  /** The largest `j` in `[2, top]` that closes the scope: the greedy `.+` of the group backtracking from the right. */
  function LastScopeClose(rest: string, top: nat): (r: Option<nat>)
    ensures r.Some? ==> 2 <= r.value <= top && ClosesScope(rest, r.value)
    ensures r.Some? ==> forall k :: r.value < k <= top ==> !ClosesScope(rest, k)
    ensures r.None? ==> forall k :: 2 <= k <= top ==> !ClosesScope(rest, k)
  {
    if top < 2 then None
    else if ClosesScope(rest, top) then Some(top)
    else LastScopeClose(rest, top - 1)
  }

  /**
   * The match JavaScript's backtracking finds: the longest run of word
   * characters as the type, then the scope group with its `.+` as long as
   * possible, else no group at all.
   */
  function ParseHeader(m: string): Option<Header> {
    var n := WordPrefixLength(m);
    var rest := m[n..];
    if n == 0 || !NoLineTerminator(m) then None
    else if |rest| >= 4 && m[n] == '(' then
      match LastScopeClose(rest, |rest| - 4)
      case Some(j) => Some(Header(m[..n], Some(m[n + 1..n + j]), m[n + j + 3..]))
      case None => None
    else if |rest| >= 3 && m[n] == ':' && m[n + 1] == ' ' then Some(Header(m[..n], None, m[n + 2..]))
    else None
  }

  /** Soundness: whatever the parser returns is a split of the message in the language of the pattern. */
  lemma ParseHeaderSound(m: string)
    requires ParseHeader(m).Some?
    ensures Matches(m, ParseHeader(m).value)
  {
    var n := WordPrefixLength(m);
    WordPrefixIsWordChars(m);
    if |m| - n >= 4 && m[n] == '(' {
      var j := LastScopeClose(m[n..], |m| - n - 4).value;
      assert ParseHeader(m).value == Header(m[..n], Some(m[n + 1..n + j]), m[n + j + 3..]);
      ScopedSplit(m, n, j);
    } else {
      assert ParseHeader(m).value == Header(m[..n], None, m[n + 2..]);
      PlainSplit(m, n);
    }
  }

  /** The type the parser takes is made of word characters. */
  lemma WordPrefixIsWordChars(m: string)
    ensures AllWordChars(m[..WordPrefixLength(m)])
  {
  }

  /** `m` cut at four positions and put back together. */
  lemma Reassemble(m: string, a: nat, b: nat, c: nat, d: nat)
    requires a <= b <= c <= d <= |m|
    ensures m == m[..a] + m[a..b] + m[b..c] + m[c..d] + m[d..]
  {
    assert m[..a] + m[a..b] == m[..b];
    assert m[..b] + m[b..c] == m[..c];
    assert m[..c] + m[c..d] == m[..d];
    assert m[..d] + m[d..] == m;
  }

  lemma ScopedSplit(m: string, n: nat, j: nat)
    requires 1 <= n <= |m| && AllWordChars(m[..n]) && NoLineTerminator(m)
    requires 2 <= j && ClosesScope(m[n..], j) && m[n] == '('
    ensures Matches(m, Header(m[..n], Some(m[n + 1..n + j]), m[n + j + 3..]))
  {
    assert m[n + j] == ')' && m[n + j + 1] == ':' && m[n + j + 2] == ' ';
    Reassemble(m, n, n + 1, n + j, n + j + 3);
    assert m[n..n + 1] == "(";
    assert m[n + j..n + j + 3] == "): ";
    NoLineTerminatorSlice(m, n + 1, n + j);
    NoLineTerminatorSlice(m, n + j + 3, |m|);
  }

  lemma PlainSplit(m: string, n: nat)
    requires 1 <= n && n + 3 <= |m| && AllWordChars(m[..n]) && NoLineTerminator(m)
    requires m[n] == ':' && m[n + 1] == ' '
    ensures Matches(m, Header(m[..n], None, m[n + 2..]))
  {
    assert m == m[..n] + m[n..n + 2] + m[n + 2..];
    assert m[n..n + 2] == ": ";
    NoLineTerminatorSlice(m, n + 2, |m|);
  }

  lemma NoLineTerminatorSlice(s: string, a: nat, b: nat)
    requires a <= b <= |s| && NoLineTerminator(s)
    ensures NoLineTerminator(s[a..b])
  {
    forall i | 0 <= i < b - a
      ensures !IsLineTerminator(s[a..b][i])
    {
      assert s[a..b][i] == s[a + i];
    }
  }

  lemma NoLineTerminatorOfMatch(m: string, h: Header)
    requires Matches(m, h)
    ensures NoLineTerminator(m)
  {
    var g := ScopeGroup(h.scope);
    assert NoLineTerminator(g);
    var parts := h.kind + g + ": ";
    assert m == parts + h.description;
    forall i | 0 <= i < |m|
      ensures !IsLineTerminator(m[i])
    {
      if i < |h.kind| {
        assert m[i] == h.kind[i];
      } else if i < |h.kind| + |g| {
        assert m[i] == g[i - |h.kind|];
      } else if i < |parts| {
        assert m[i] == ": "[i - |h.kind| - |g|];
      } else {
        assert m[i] == h.description[i - |parts|];
      }
    }
  }

  /**
   * Completeness and greed: every message in the language is parsed, with
   * the same type, and with a scope at least as long as that of any split
   * (a message with a split without scope has only that split).
   */
  lemma ParseHeaderComplete(m: string, h: Header)
    requires Matches(m, h)
    ensures ParseHeader(m).Some?
    ensures ParseHeader(m).value.kind == h.kind
    ensures h.scope.None? ==> ParseHeader(m).value == h
    ensures h.scope.Some? ==> ParseHeader(m).value.scope.Some? && |ParseHeader(m).value.scope.value| >= |h.scope.value|
  {
    NoLineTerminatorOfMatch(m, h);
    TypeIsWordPrefix(m, h);
    var n := |h.kind|;
    var rest := m[n..];
    assert rest == ScopeGroup(h.scope) + ": " + h.description;
    match h.scope
    case None =>
      assert rest[2..] == h.description;
    case Some(s) =>
      assert rest == "(" + s + ")" + ": " + h.description;
      assert ClosesScope(rest, |s| + 1);
  }

  /** The type of a split is the longest prefix of word characters. */
  lemma TypeIsWordPrefix(m: string, h: Header)
    requires Matches(m, h)
    ensures WordPrefixLength(m) == |h.kind| && m[..|h.kind|] == h.kind
  {
    var k := |h.kind|;
    var tail := ScopeGroup(h.scope) + ": " + h.description;
    assert m == h.kind + tail;
    assert m[k] == tail[0];
  }

  /** Two splits of one message with the same type and scope length are the same split. */
  lemma SplitDeterminedByLengths(m: string, h1: Header, h2: Header)
    requires Matches(m, h1) && Matches(m, h2)
    requires h1.kind == h2.kind && h1.scope.Some? && h2.scope.Some? && |h1.scope.value| == |h2.scope.value|
    ensures h1 == h2
  {
    var k := |h1.kind|;
    var l := |h1.scope.value|;
    assert m == h1.kind + "(" + h1.scope.value + ")" + ": " + h1.description;
    assert m == h2.kind + "(" + h2.scope.value + ")" + ": " + h2.description;
    assert h1.scope.value == m[k + 1..k + 1 + l];
    assert h2.scope.value == m[k + 1..k + 1 + l];
    assert h1.description == m[k + l + 4..];
    assert h2.description == m[k + l + 4..];
  }

  /** The fallback emoji, for subjects that are not conventional and for unknown types. */
  const DefaultEmoji: string := "📝"

  /** The eleven types `getTypeEmoji` knows, lower-case. */
  const TypeEmojis: map<string, string> := map[
    "feat" := "✨", "fix" := "🐛", "docs" := "📚", "style" := "💄", "refactor" := "♻️", "test" := "🧪",
    "chore" := "🔧", "perf" := "⚡", "ci" := "👷", "build" := "📦", "revert" := "⏪"]

  /** `getTypeEmoji`: the emoji of the lower-cased type, the default for any other type. */
  function TypeEmoji(kind: string): (e: string)
    ensures e == DefaultEmoji <==> Lower(kind) !in TypeEmojis
  {
    assert DefaultEmoji !in TypeEmojis.Values;
    if Lower(kind) in TypeEmojis then TypeEmojis[Lower(kind)] else DefaultEmoji
  }

  /** The lookup ignores case. */
  lemma TypeEmojiIgnoresCase(kind: string)
    ensures TypeEmoji(Upper(kind)) == TypeEmoji(kind)
    ensures TypeEmoji(Lower(kind)) == TypeEmoji(kind)
  {
    LowerIgnoresCase(kind);
  }

  /** ` **scope**` after the type, or nothing when there is no scope. */
  function ScopeText(scope: Option<string>): string {
    match scope
    case Some(s) => " **" + s + "**"
    case None => ""
  }

  /** `formatCommitMessage`. */
  function FormatCommitMessage(message: string): string {
    match ParseHeader(message)
    case Some(h) => TypeEmoji(h.kind) + " **" + Upper(h.kind) + "**" + ScopeText(h.scope) + ": " + h.description
    case None => DefaultEmoji + " " + message
  }

  /** A subject outside the pattern's language is shown unchanged after the default emoji. */
  lemma FormatNonConventional(message: string)
    requires forall h :: !Matches(message, h)
    ensures FormatCommitMessage(message) == "📝 " + message
  {
    if ParseHeader(message).Some? {
      ParseHeaderSound(message);
    }
  }

  /**
   * A conventional subject becomes its type's emoji, the upper-cased type in
   * bold, the bold scope when there is one, and the description; when several
   * splits exist, the one with the longest scope is shown.
   */
  lemma FormatConventional(message: string, h: Header)
    requires Matches(message, h)
    requires h.scope.Some? ==> forall h2 :: Matches(message, h2) && h2.scope.Some? ==> |h2.scope.value| <= |h.scope.value|
    ensures FormatCommitMessage(message) ==
      TypeEmoji(h.kind) + " **" + Upper(h.kind) + "**" + ScopeText(h.scope) + ": " + h.description
  {
    ParseHeaderComplete(message, h);
    ParseHeaderSound(message);
    var p := ParseHeader(message).value;
    if h.scope.Some? {
      SplitDeterminedByLengths(message, p, h);
    }
  }
}
