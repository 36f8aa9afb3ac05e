/** HuggingFace `resolve` links: the parser that recognises them and the printer
    that writes a pinned model's URL undo each other. */
module Links {
  import opened Wrappers
  import opened Names

  const SCHEME: string := "https://"
  const HOST: string := "huggingface.co"

  datatype ResolveLink = ResolveLink(repo: string, revision: string, path: string)

  // ---------------------------------------------------------------- splitting

  function Split(s: string): (parts: seq<string>)
    ensures parts != []
    ensures forall p :: p in parts ==> '/' !in p
  {
    if s == "" then [""]
    else
      var rest := Split(s[1..]);
      if s[0] == '/' then [""] + rest else [[s[0]] + rest[0]] + rest[1..]
  }

  function Join(parts: seq<string>): string
    requires parts != []
  {
    if |parts| == 1 then parts[0] else parts[0] + "/" + Join(parts[1..])
  }

  lemma {:induction false} JoinSplit(s: string)
    ensures Join(Split(s)) == s
  {
    if s == "" {
    } else {
      JoinSplit(s[1..]);
      var rest := Split(s[1..]);
      if s[0] == '/' {
        assert ([""] + rest)[1..] == rest;
      } else {
        assert ([[s[0]] + rest[0]] + rest[1..])[1..] == rest[1..];
      }
    }
  }

  lemma {:induction false} SplitAppend(a: string, s: string)
    requires '/' !in a
    ensures Split(a + s) == [a + Split(s)[0]] + Split(s)[1..]
  {
    if a == "" {
      assert a + s == s && a + Split(s)[0] == Split(s)[0];
    } else {
      assert (a + s)[0] == a[0] && (a + s)[1..] == a[1..] + s && a[0] in a;
      assert forall c :: c in a[1..] ==> c in a;
      SplitAppend(a[1..], s);
      assert [a[0]] + (a[1..] + Split(s)[0]) == a + Split(s)[0];
    }
  }

  lemma SplitSegment(a: string, s: string)
    requires '/' !in a
    ensures Split(a + ("/" + s)) == [a] + Split(s)
  {
    var t := "/" + s;
    assert t[0] == '/' && t[1..] == s;
    assert Split(t) == [""] + Split(s);
    SplitAppend(a, t);
    assert a + "" == a;
  }

  /** `split_once('/')`. */
  function SplitOnce(s: string): Option<(string, string)> {
    if s == "" then None
    else if s[0] == '/' then Some(("", s[1..]))
    else match SplitOnce(s[1..])
      case None => None
      case Some((a, b)) => Some(([s[0]] + a, b))
  }

  lemma {:induction false} SplitOnceFinds(a: string, b: string)
    requires '/' !in a
    ensures SplitOnce(a + "/" + b) == Some((a, b))
  {
    var s := a + "/" + b;
    if a == "" {
      assert s == "/" + b && s[1..] == b;
    } else {
      assert s[0] == a[0] && s[1..] == a[1..] + "/" + b && a[0] in a;
      assert forall c :: c in a[1..] ==> c in a;
      SplitOnceFinds(a[1..], b);
      assert [a[0]] + a[1..] == a;
    }
  }

  lemma {:induction false} SplitOnceSplits(s: string)
    requires SplitOnce(s).Some?
    ensures s == SplitOnce(s).value.0 + "/" + SplitOnce(s).value.1
  {
    if s[0] == '/' {
    } else {
      SplitOnceSplits(s[1..]);
    }
  }

  predicate Cuts(c: char) { c == '?' || c == '#' }

  /** The part before the first `?` or `#`. */
  function Cut(s: string): (r: string)
    ensures r <= s && forall c :: c in r ==> !Cuts(c)
    ensures (forall c :: c in s ==> !Cuts(c)) ==> r == s
  {
    if s == "" || Cuts(s[0]) then ""
    else
      assert forall c :: c in s[1..] ==> c in s;
      [s[0]] + Cut(s[1..])
  }

  lemma {:induction false} CutAppend(a: string, s: string)
    requires forall c :: c in a ==> !Cuts(c)
    ensures Cut(a + s) == a + Cut(s)
  {
    if a == "" {
      assert a + s == s;
    } else {
      assert (a + s)[0] == a[0] && (a + s)[1..] == a[1..] + s && a[0] in a;
      assert forall c :: c in a[1..] ==> c in a;
      CutAppend(a[1..], s);
    }
  }

  // -------------------------------------------------------- parser and printer

  function ParsePath(rest: string): Option<ResolveLink> {
    var parts := Split(rest);
    if |parts| < 5 || parts[0] == "resolve" || parts[1] == "resolve" || parts[2] != "resolve" then None
    else
      var repo := parts[0] + "/" + parts[1];
      var revision := parts[3];
      var path := Join(parts[4..]);
      if revision == "" || path == "" then None else Some(ResolveLink(repo, revision, path))
  }

  function ParseResolveLink(url: string): Option<ResolveLink> {
    if !(SCHEME <= url) then None
    else match SplitOnce(url[|SCHEME|..])
      case None => None
      case Some((host, rest)) => if Lower(host) != HOST then None else ParsePath(Cut(rest))
  }

  function PathOf(link: ResolveLink): string {
    link.repo + ("/" + ("resolve" + ("/" + (link.revision + ("/" + link.path)))))
  }

  function Print(link: ResolveLink): string { SCHEME + HOST + "/" + PathOf(link) }

  predicate Plain(s: string) { forall c :: c in s ==> !Cuts(c) }

  /** What a link must look like to survive the trip: two repo segments that are
      not the word the parser looks for, one non-empty revision segment, a
      non-empty path, and no query or fragment marks anywhere. */
  predicate WellFormed(link: ResolveLink) {
    && |Split(link.repo)| == 2 && Split(link.repo)[0] != "resolve" && Split(link.repo)[1] != "resolve"
    && link.revision != "" && '/' !in link.revision
    && link.path != ""
    && Plain(link.repo) && Plain(link.revision) && Plain(link.path)
  }

  lemma SplitPath(link: ResolveLink, a: string, b: string)
    requires link.repo == a + "/" + b && '/' !in a && '/' !in b && '/' !in link.revision
    ensures Split(PathOf(link)) == [a, b, "resolve", link.revision] + Split(link.path)
  {
    hide Split;
    var r4 := link.path;
    var r3 := link.revision + ("/" + r4);
    var r2 := "resolve" + ("/" + r3);
    var r1 := b + ("/" + r2);
    SplitSegment(link.revision, r4);
    SplitSegment("resolve", r3);
    SplitSegment(b, r2);
    SplitSegment(a, r1);
    RepoFirst(a, b, "/" + r2);
    assert PathOf(link) == a + ("/" + r1);
    assert Split(PathOf(link)) == [a] + ([b] + (["resolve"] + ([link.revision] + Split(r4))));
  }

  lemma ParsePathInverts(link: ResolveLink)
    requires WellFormed(link)
    ensures ParsePath(PathOf(link)) == Some(link)
  {
    var repo := Split(link.repo);
    JoinSplit(link.repo);
    assert Join(repo) == repo[0] + "/" + Join(repo[1..]) && Join(repo[1..]) == repo[1];
    assert repo[0] in repo && repo[1] in repo;
    SplitPath(link, repo[0], repo[1]);
    var parts := Split(PathOf(link));
    assert parts[4..] == Split(link.path);
    JoinSplit(link.path);
  }

  lemma SplitRepo(a: string, b: string)
    requires '/' !in a && '/' !in b
    ensures Split(a + "/" + b) == [a, b]
  {
    assert a + "/" + b == a + ("/" + b);
    SplitSegment(a, b);
    SplitAppend(b, "");
    assert b + "" == b;
  }

  lemma ParsePathPrints(rest: string)
    requires ParsePath(rest).Some? && Plain(rest)
    ensures PathOf(ParsePath(rest).value) == rest
    ensures WellFormed(ParsePath(rest).value)
  {
    hide Split;
    hide Join;
    hide Plain;
    var parts := Split(rest);
    var link := ParsePath(rest).value;
    JoinSplit(rest);
    JoinFive(parts);
    RepoFirst(parts[0], parts[1], "/" + (parts[2] + ("/" + (parts[3] + ("/" + Join(parts[4..]))))));
    SplitRepo(parts[0], parts[1]);
    PiecesArePlain(link);
  }

  lemma RepoFirst(a: string, b: string, tail: string)
    ensures (a + "/" + b) + tail == a + ("/" + (b + tail))
  {
  }

  lemma PiecesArePlain(link: ResolveLink)
    requires Plain(PathOf(link))
    ensures Plain(link.repo) && Plain(link.revision) && Plain(link.path)
  {
    var s := PathOf(link);
    forall c | c in link.repo || c in link.revision || c in link.path ensures !Cuts(c) {
      assert c in s;
    }
  }

  lemma JoinHead(parts: seq<string>, k: nat)
    requires k + 1 < |parts|
    ensures Join(parts[k..]) == parts[k] + ("/" + Join(parts[k + 1..]))
  {
    assert parts[k..][1..] == parts[k + 1..];
  }

  lemma JoinFive(parts: seq<string>)
    requires |parts| >= 5
    ensures Join(parts)
         == parts[0] + ("/" + (parts[1] + ("/" + (parts[2] + ("/" + (parts[3] + ("/" + Join(parts[4..]))))))))
  {
    hide Join;
    assert parts[0..] == parts;
    JoinHead(parts, 0);
    JoinHead(parts, 1);
    JoinHead(parts, 2);
    JoinHead(parts, 3);
  }

  lemma HostIsLower()
    ensures Lower(HOST) == HOST && '/' !in HOST
  {
    hide Lower;
    assert forall i :: 0 <= i < |HOST| ==> LowerChar(HOST[i]) == HOST[i] && HOST[i] != '/';
  }

  /** A URL taken apart at its host. */
  lemma ParseAtHost(host: string, rest: string)
    requires '/' !in host
    ensures ParseResolveLink(SCHEME + host + "/" + rest) == if Lower(host) == HOST then ParsePath(Cut(rest)) else None
  {
    hide Lower;
    hide Cut;
    hide ParsePath;
    var url := SCHEME + host + "/" + rest;
    assert SCHEME <= url && url[|SCHEME|..] == host + "/" + rest;
    SplitOnceFinds(host, rest);
  }

  /** Parsing a printed link gives it back exactly when it is well formed. */
  lemma ParsePrintIff(link: ResolveLink)
    ensures ParseResolveLink(Print(link)) == Some(link) <==> WellFormed(link)
  {
    hide ParseResolveLink;
    hide ParsePath;
    hide Cut;
    hide WellFormed;
    HostIsLower();
    ParseAtHost(HOST, PathOf(link));
    hide Lower;
    if WellFormed(link) {
      PrintedIsPlain(link);
      ParsePathInverts(link);
    } else if ParsePath(Cut(PathOf(link))).Some? {
      ParsePathPrints(Cut(PathOf(link)));
    }
  }

  lemma PrintedIsPlain(link: ResolveLink)
    requires WellFormed(link)
    ensures Plain(PathOf(link))
  {
    forall c | c in PathOf(link) ensures !Cuts(c) {
      assert c in link.repo || c in "resolve" || c in link.revision || c == '/' || c in link.path;
    }
  }

  /** Printing an accepted link gives the original URL cut at its first `?` or
      `#`, with the host written in lower case. */
  lemma PrintParsed(url: string)
    requires ParseResolveLink(url).Some?
    ensures |SCHEME + HOST| <= |Cut(url)|
    ensures Print(ParseResolveLink(url).value) == SCHEME + HOST + Cut(url)[|SCHEME + HOST|..]
    ensures Lower(Cut(url)[|SCHEME|..|SCHEME + HOST|]) == HOST
    ensures WellFormed(ParseResolveLink(url).value)
  {
    hide Lower;
    hide ParsePath;
    hide WellFormed;
    hide PathOf;
    var (host, rest) := SplitOnce(url[|SCHEME|..]).value;
    SplitOnceSplits(url[|SCHEME|..]);
    ParsePathPrints(Cut(rest));
    CutAfterHost(url, host, rest);
  }

  /** The printed link, piece by piece. */
  lemma PrintedText(link: ResolveLink)
    ensures Print(link)
         == "https://huggingface.co/" + link.repo + "/resolve/" + link.revision + "/" + link.path
  {
    var tail := "/" + (link.revision + ("/" + link.path));
    assert SCHEME + HOST + "/" == "https://huggingface.co/";
    assert "/" + ("resolve" + tail) == "/resolve/" + (link.revision + ("/" + link.path));
  }

  lemma HostHasNoSlash(host: string)
    requires Lower(host) == HOST
    ensures '/' !in host
  {
    assert forall i :: 0 <= i < |HOST| ==> HOST[i] != '/';
    forall c | c in host ensures c != '/' {
      var i :| 0 <= i < |host| && host[i] == c;
      assert LowerChar(c) == HOST[i];
      assert c == '/' ==> LowerChar(c) == c;
    }
  }

  /** Every writing of a well-formed link is accepted and gives the link: the host in
      any casing, and whatever follows a `?` or `#`. With `PrintParsed` this says
      exactly which URLs are. */
  lemma EveryWritingIsAccepted(link: ResolveLink, host: string, tail: string)
    requires WellFormed(link) && Lower(host) == "huggingface.co"
    requires tail == "" || tail[0] == '?' || tail[0] == '#'
    ensures ParseResolveLink("https://" + host + "/" + (PathOf(link) + tail)) == Some(link)
  {
    PrintedIsPlain(link);
    ParsePathInverts(link);
    var path := PathOf(link);
    assert Cut(tail) == "" && path + "" == path;
    hide WellFormed;
    hide ParsePath;
    hide PathOf;
    hide ParseResolveLink;
    hide Cut;
    CutAppend(path, tail);
    HostHasNoSlash(host);
    hide Lower;
    ParseAtHost(host, path + tail);
    assert SCHEME + host + "/" + (path + tail) == "https://" + host + "/" + (path + tail);
  }

  /** An accepted link names both an owner and a repository exactly when its repo
      neither starts nor ends with a slash: the parser's own test for an empty repo
      never fires, since the two segments are joined by one. */
  lemma OwnerAndNameGivenIff(url: string)
    requires ParseResolveLink(url).Some?
    ensures var repo := ParseResolveLink(url).value.repo;
            && repo != "" && |Split(repo)| == 2
            && (Split(repo)[0] != "" && Split(repo)[1] != "" <==> repo[0] != '/' && repo[|repo| - 1] != '/')
  {
    hide ParseResolveLink;
    PrintParsed(url);
    hide Cut;
    var repo := ParseResolveLink(url).value.repo;
    var parts := Split(repo);
    JoinSplit(repo);
    assert parts[1..][1..] == [];
    assert Join(parts[1..]) == parts[1];
    assert repo == parts[0] + "/" + parts[1];
    hide Split;
    assert parts[0] in parts && parts[1] in parts;
    assert parts[0] != "" ==> repo[0] == parts[0][0] && parts[0][0] in parts[0];
    assert parts[1] != "" ==> repo[|repo| - 1] == parts[1][|parts[1]| - 1] && parts[1][|parts[1]| - 1] in parts[1];
  }

  /** A link with neither is accepted. */
  lemma NamelessRepoIsAccepted()
    ensures ParseResolveLink(Print(ResolveLink("/", "main", "f"))) == Some(ResolveLink("/", "main", "f"))
  {
    var link := ResolveLink("/", "main", "f");
    assert WellFormed(link) by {
      assert "/" == "" + ("/" + "");
      SplitSegment("", "");
      assert Split("") == [""];
      assert Split("/") == ["", ""];
    }
    hide WellFormed;
    hide Print;
    hide ParseResolveLink;
    ParsePrintIff(link);
  }

  lemma ThreeSlices(a: string, b: string, c: string)
    ensures (a + b + c)[|a|..|a + b|] == b && (a + b + c)[|a + b|..] == c
  {
  }

  lemma Regroup(a: string, b: string, c: string, d: string)
    ensures (a + b + c) + d == a + b + (c + d)
  {
  }

  lemma CutAfterHost(url: string, host: string, rest: string)
    requires SCHEME <= url && url[|SCHEME|..] == host + "/" + rest && Lower(host) == HOST
    ensures |SCHEME + HOST| <= |Cut(url)|
    ensures Cut(url)[|SCHEME|..|SCHEME + HOST|] == host
    ensures Cut(url)[|SCHEME + HOST|..] == "/" + Cut(rest)
  {
    hide Cut;
    HostHasNoMarks(host);
    assert |host| == |HOST|;
    hide Lower;
    assert url == SCHEME + (host + "/" + rest);
    assert url == (SCHEME + host + "/") + rest;
    CutAppend(SCHEME + host + "/", rest);
    Regroup(SCHEME, host, "/", Cut(rest));
    ThreeSlices(SCHEME, host, "/" + Cut(rest));
    assert |SCHEME + host| == |SCHEME + HOST|;
  }

  lemma HostHasNoMarks(host: string)
    requires Lower(host) == HOST
    ensures forall c :: c in SCHEME + host + "/" ==> !Cuts(c)
  {
    assert forall i :: 0 <= i < |HOST| ==> !Cuts(HOST[i]);
    forall c | c in host ensures !Cuts(c) {
      var i :| 0 <= i < |host| && host[i] == c;
      assert LowerChar(c) == HOST[i];
      assert Cuts(c) ==> LowerChar(c) == c;
    }
    assert forall c :: c in SCHEME ==> !Cuts(c);
    assert forall c :: c in SCHEME + host + "/" ==> c in SCHEME || c in host || c == '/';
  }
}
