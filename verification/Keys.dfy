/** The '|'-joined cache keys and the parsers that invert them. */
module Keys {
  import opened Wrappers
  import opened Decimal

  const PIPE: char := '|'

  predicate PipeFree(s: string) {
    '|' !in s
  }

  // ---------- Cutting a key at its first or last separator ----------

  /** Everything before the first separator, and everything after it. */
  function CutFirst(s: string): Option<(string, string)> {
    if s == [] then None
    else if s[0] == PIPE then Some(([], s[1..]))
    else
      match CutFirst(s[1..])
      case None => None
      case Some((a, b)) => Some(([s[0]] + a, b))
  }

  /** Everything before the last separator, and everything after it. */
  function CutLast(s: string): Option<(string, string)> {
    if s == [] then None
    else if s[|s| - 1] == PIPE then Some((s[..|s| - 1], []))
    else
      match CutLast(s[..|s| - 1])
      case None => None
      case Some((a, b)) => Some((a, b + [s[|s| - 1]]))
  }

  lemma {:induction false} CutFirstOfJoin(a: string, b: string)
    requires PipeFree(a)
    ensures CutFirst(a + [PIPE] + b) == Some((a, b))
  {
    var s := a + [PIPE] + b;
    if a == [] {
      assert s[1..] == b;
    } else {
      assert a[0] in a;
      assert s[1..] == a[1..] + [PIPE] + b;
      CutFirstOfJoin(a[1..], b);
      assert [a[0]] + a[1..] == a;
    }
  }

  lemma {:induction false} CutLastOfJoin(a: string, b: string)
    requires PipeFree(b)
    ensures CutLast(a + [PIPE] + b) == Some((a, b))
  {
    var s := a + [PIPE] + b;
    if b == [] {
      assert s[..|s| - 1] == a;
    } else {
      var n := |b| - 1;
      assert b[n] in b;
      assert s[|s| - 1] == b[n];
      assert s[..|s| - 1] == a + [PIPE] + b[..n];
      CutLastOfJoin(a, b[..n]);
      assert b[..n] + [b[n]] == b;
    }
  }

  // ---------- The keys ----------

  /** Four texts and two numbers: the key of a pipeline list and of a pull request list. */
  function ListKey(a: string, b: string, c: string, d: string, page: int, perPage: int): string {
    a + [PIPE] + b + [PIPE] + c + [PIPE] + d + [PIPE] + Itoa(page) + [PIPE] + Itoa(perPage)
  }

  /** A list request with absent filters already read as empty ones, as the key reads them. */
  datatype ListRequest = ListRequest(a: string, b: string, c: string, d: string, page: int, perPage: int) {
    function Key(): string {
      ListKey(a, b, c, d, page, perPage)
    }
    /** The texts before and after the third one carry no separator. */
    predicate OuterPipeFree() {
      PipeFree(a) && PipeFree(b) && PipeFree(d)
    }
    predicate AllPipeFree() {
      OuterPipeFree() && PipeFree(c)
    }
  }

  /** The parser: two cuts from the left, three from the right, the third text is what remains. */
  function DecodeList(key: string): Option<ListRequest> {
    match CutFirst(key)
    case None => None
    case Some((a, r1)) =>
      match CutFirst(r1)
      case None => None
      case Some((b, r2)) =>
        match CutLast(r2)
        case None => None
        case Some((r3, perPage)) =>
          match CutLast(r3)
          case None => None
          case Some((r4, page)) =>
            match CutLast(r4)
            case None => None
            case Some((c, d)) =>
              match (Atoi(page), Atoi(perPage))
              case (Some(p), Some(q)) => Some(ListRequest(a, b, c, d, p, q))
              case _ => None
  }

  /** The parser inverts the printer whenever the outer texts carry no separator; the third text
      (a git ref, a repository name) is arbitrary. */
  lemma DecodeListOfKey(r: ListRequest)
    requires r.OuterPipeFree()
    requires IsInt64(r.page) && IsInt64(r.perPage)
    ensures DecodeList(r.Key()) == Some(r)
  {
    var page, perPage := Itoa(r.page), Itoa(r.perPage);
    var r4 := r.c + [PIPE] + r.d;
    var r3 := r4 + [PIPE] + page;
    var r2 := r3 + [PIPE] + perPage;
    var r1 := r.b + [PIPE] + r2;
    assert r.Key() == r.a + [PIPE] + r1;
    CutFirstOfJoin(r.a, r1);
    CutFirstOfJoin(r.b, r2);
    CutLastOfJoin(r3, perPage);
    CutLastOfJoin(r4, page);
    CutLastOfJoin(r.c, r.d);
    AtoiOfItoa(r.page);
    AtoiOfItoa(r.perPage);
  }

  // ---------- Exactly which requests own their key ----------

  function Pipes(s: string): nat {
    if s == [] then 0 else (if s[0] == PIPE then 1 else 0) + Pipes(s[1..])
  }

  lemma {:induction false} PipesConcat(s: string, t: string)
    ensures Pipes(s + t) == Pipes(s) + Pipes(t)
  {
    if s == [] {
      assert s + t == t;
    } else {
      assert (s + t)[1..] == s[1..] + t;
      PipesConcat(s[1..], t);
    }
  }

  lemma {:induction false} PipesZero(s: string)
    ensures Pipes(s) == 0 <==> PipeFree(s)
  {
    if s != [] {
      PipesZero(s[1..]);
      assert s == [s[0]] + s[1..];
    }
  }

  lemma PipesOfListKey(r: ListRequest)
    ensures Pipes(r.Key()) == 5 + Pipes(r.a) + Pipes(r.b) + Pipes(r.c) + Pipes(r.d)
  {
    var k1 := r.a + [PIPE];
    var k2 := k1 + r.b + [PIPE];
    var k3 := k2 + r.c + [PIPE];
    var k4 := k3 + r.d + [PIPE];
    var k5 := k4 + Itoa(r.page) + [PIPE];
    PipesConcat(k5, Itoa(r.perPage));
    PipesConcat(k4 + Itoa(r.page), [PIPE]);
    PipesConcat(k4, Itoa(r.page));
    PipesConcat(k3 + r.d, [PIPE]);
    PipesConcat(k3, r.d);
    PipesConcat(k2 + r.c, [PIPE]);
    PipesConcat(k2, r.c);
    PipesConcat(k1 + r.b, [PIPE]);
    PipesConcat(k1, r.b);
    PipesConcat(r.a, [PIPE]);
    PipesZero(Itoa(r.page));
    PipesZero(Itoa(r.perPage));
  }

  ghost predicate OwnsKey(r: ListRequest) {
    forall q: ListRequest :: IsInt64(q.page) && IsInt64(q.perPage) && q.Key() == r.Key() ==> q == r
  }

  lemma PipeFreeOwnsKey(r: ListRequest, q: ListRequest)
    requires r.AllPipeFree() && q.Key() == r.Key()
    requires IsInt64(r.page) && IsInt64(r.perPage) && IsInt64(q.page) && IsInt64(q.perPage)
    ensures q == r
  {
    PipesOfListKey(r);
    PipesOfListKey(q);
    PipesZero(r.a); PipesZero(r.b); PipesZero(r.c); PipesZero(r.d);
    PipesZero(q.a); PipesZero(q.b); PipesZero(q.c); PipesZero(q.d);
    DecodeListOfKey(r);
    DecodeListOfKey(q);
  }

  lemma SplitAtPipe(s: string) returns (x: string, y: string)
    requires !PipeFree(s)
    ensures s == x + [PIPE] + y
  {
    var i :| 0 <= i < |s| && s[i] == PIPE;
    x, y := s[..i], s[i + 1..];
  }

  function Texts(a: string, b: string, c: string, d: string): string {
    a + [PIPE] + b + [PIPE] + c + [PIPE] + d
  }

  lemma KeyIsTextsAndNumbers(r: ListRequest)
    ensures r.Key() == Texts(r.a, r.b, r.c, r.d) + ([PIPE] + Itoa(r.page) + [PIPE] + Itoa(r.perPage))
  {
  }

  // A separator can move out of each of the four texts without changing the joined text.

  lemma MoveFromFirst(x: string, y: string, b: string, c: string, d: string)
    ensures Texts(x + [PIPE] + y, b, c, d) == Texts(x, y, b + [PIPE] + c, d)
  {
  }

  lemma MoveFromSecond(a: string, x: string, y: string, c: string, d: string)
    ensures Texts(a, x + [PIPE] + y, c, d) == Texts(a, x, y + [PIPE] + c, d)
  {
  }

  lemma MoveFromThird(a: string, b: string, x: string, y: string, d: string)
    ensures Texts(a, b, x + [PIPE] + y, d) == Texts(a, b, x, y + [PIPE] + d)
  {
  }

  /** A separator inside any text lets another request print the same key. */
  lemma KeyRival(r: ListRequest) returns (q: ListRequest)
    requires !r.AllPipeFree()
    ensures q != r && q.Key() == r.Key() && q.page == r.page && q.perPage == r.perPage
  {
    if !PipeFree(r.a) {
      var x, y := SplitAtPipe(r.a);
      q := r.(a := x, b := y, c := r.b + [PIPE] + r.c);
      MoveFromFirst(x, y, r.b, r.c, r.d);
      assert |q.a| < |r.a|;
    } else if !PipeFree(r.b) {
      var x, y := SplitAtPipe(r.b);
      q := r.(b := x, c := y + [PIPE] + r.c);
      MoveFromSecond(r.a, x, y, r.c, r.d);
      assert |q.b| < |r.b|;
    } else if !PipeFree(r.c) {
      var x, y := SplitAtPipe(r.c);
      q := r.(c := x, d := y + [PIPE] + r.d);
      MoveFromThird(r.a, r.b, x, y, r.d);
      assert |q.c| < |r.c|;
    } else {
      var x, y := SplitAtPipe(r.d);
      q := r.(c := r.c + [PIPE] + x, d := y);
      MoveFromThird(r.a, r.b, r.c, x, y);
      assert |q.d| < |r.d|;
    }
    KeyIsTextsAndNumbers(r);
    KeyIsTextsAndNumbers(q);
  }

  /** The exact condition: no other request shares a request's key if and only if none of its four
      texts contains the separator. */
  lemma OwnsKeyIff(r: ListRequest)
    requires IsInt64(r.page) && IsInt64(r.perPage)
    ensures OwnsKey(r) <==> r.AllPipeFree()
  {
    if r.AllPipeFree() {
      forall q: ListRequest | IsInt64(q.page) && IsInt64(q.perPage) && q.Key() == r.Key()
        ensures q == r
      {
        PipeFreeOwnsKey(r, q);
      }
    } else {
      var q := KeyRival(r);
    }
  }

  // ---------- Keys ending in a job or pipeline number ----------

  /** The key of a trace: the git server, the project and the job number. */
  function TraceKey(server: string, project: string, jobId: int): string {
    server + [PIPE] + project + [PIPE] + Itoa(jobId)
  }

  /** The key of a terminal-job marker: the git server and the printed job number. */
  function TerminalJobKey(server: string, jobId: string): string {
    server + [PIPE] + jobId
  }

  /** With separator-free server names the trace key names one request; the project is arbitrary. */
  lemma TraceKeyInjective(s1: string, p1: string, j1: int, s2: string, p2: string, j2: int)
    requires TraceKey(s1, p1, j1) == TraceKey(s2, p2, j2)
    requires PipeFree(s1) && PipeFree(s2)
    ensures s1 == s2 && p1 == p2 && j1 == j2
  {
    CutLastOfJoin(s1 + [PIPE] + p1, Itoa(j1));
    CutLastOfJoin(s2 + [PIPE] + p2, Itoa(j2));
    CutFirstOfJoin(s1, p1);
    CutFirstOfJoin(s2, p2);
    ItoaInjective(j1, j2);
  }

  /** A marker names one job of one server, whatever the server is called: printed numbers carry no
      separator, so the last one always splits the key correctly. */
  lemma TerminalJobKeyInjective(s1: string, j1: int, s2: string, j2: int)
    requires TerminalJobKey(s1, Itoa(j1)) == TerminalJobKey(s2, Itoa(j2))
    ensures s1 == s2 && j1 == j2
  {
    CutLastOfJoin(s1, Itoa(j1));
    CutLastOfJoin(s2, Itoa(j2));
    ItoaInjective(j1, j2);
  }

  lemma PipesOfTraceKey(server: string, project: string, jobId: int)
    ensures Pipes(TraceKey(server, project, jobId)) == 2 + Pipes(server) + Pipes(project)
  {
    var k1 := server + [PIPE];
    PipesConcat(k1 + project + [PIPE], Itoa(jobId));
    PipesConcat(k1 + project, [PIPE]);
    PipesConcat(k1, project);
    PipesConcat(server, [PIPE]);
    PipesZero(Itoa(jobId));
  }

  ghost predicate OwnsTraceKey(server: string, project: string, jobId: int) {
    forall s: string, p: string, j: int ::
      TraceKey(s, p, j) == TraceKey(server, project, jobId) ==> s == server && p == project && j == jobId
  }

  lemma MoveIntoProject(x: string, y: string, project: string, jobId: int)
    ensures TraceKey(x, y + [PIPE] + project, jobId) == TraceKey(x + [PIPE] + y, project, jobId)
  {
    assert x + [PIPE] + (y + [PIPE] + project) == x + [PIPE] + y + [PIPE] + project;
  }

  lemma PipeFreeOwnsTraceKey(server: string, project: string, jobId: int, s: string, p: string, j: int)
    requires PipeFree(server) && PipeFree(project) && TraceKey(s, p, j) == TraceKey(server, project, jobId)
    ensures s == server && p == project && j == jobId
  {
    PipesOfTraceKey(s, p, j);
    PipesOfTraceKey(server, project, jobId);
    PipesZero(s); PipesZero(server); PipesZero(project);
    TraceKeyInjective(s, p, j, server, project, jobId);
  }

  /** Over all requests, no other shares a trace key if and only if neither text has a separator. */
  lemma OwnsTraceKeyIff(server: string, project: string, jobId: int)
    ensures OwnsTraceKey(server, project, jobId) <==> PipeFree(server) && PipeFree(project)
  {
    if PipeFree(server) && PipeFree(project) {
      forall s: string, p: string, j: int | TraceKey(s, p, j) == TraceKey(server, project, jobId)
        ensures s == server && p == project && j == jobId
      {
        PipeFreeOwnsTraceKey(server, project, jobId, s, p, j);
      }
    } else if !PipeFree(server) {
      var x, y := SplitAtPipe(server);
      MoveIntoProject(x, y, project, jobId);
      assert |x| < |server|;
    } else {
      var x, y := SplitAtPipe(project);
      MoveIntoProject(server, x, y, jobId);
      assert |y| < |project|;
    }
  }

  /** The key of a repository list: server, owner and name filter. */
  function RepositoryKey(server: string, owner: string, name: string): string {
    server + [PIPE] + owner + [PIPE] + name
  }

  /** With separator-free servers and owners the key names one list; the name filter is arbitrary. */
  lemma RepositoryKeyInjective(s1: string, o1: string, n1: string, s2: string, o2: string, n2: string)
    requires RepositoryKey(s1, o1, n1) == RepositoryKey(s2, o2, n2)
    requires PipeFree(s1) && PipeFree(o1) && PipeFree(s2) && PipeFree(o2)
    ensures s1 == s2 && o1 == o2 && n1 == n2
  {
    assert RepositoryKey(s1, o1, n1) == s1 + [PIPE] + (o1 + [PIPE] + n1);
    assert RepositoryKey(s2, o2, n2) == s2 + [PIPE] + (o2 + [PIPE] + n2);
    CutFirstOfJoin(s1, o1 + [PIPE] + n1);
    CutFirstOfJoin(s2, o2 + [PIPE] + n2);
    CutFirstOfJoin(o1, n1);
    CutFirstOfJoin(o2, n2);
  }

  lemma PipesOfRepositoryKey(server: string, owner: string, name: string)
    ensures Pipes(RepositoryKey(server, owner, name)) == 2 + Pipes(server) + Pipes(owner) + Pipes(name)
  {
    var k1 := server + [PIPE];
    PipesConcat(k1 + owner + [PIPE], name);
    PipesConcat(k1 + owner, [PIPE]);
    PipesConcat(k1, owner);
    PipesConcat(server, [PIPE]);
  }

  ghost predicate OwnsRepositoryKey(server: string, owner: string, name: string) {
    forall s: string, o: string, n: string ::
      RepositoryKey(s, o, n) == RepositoryKey(server, owner, name) ==> s == server && o == owner && n == name
  }

  lemma PipeFreeOwnsRepositoryKey(server: string, owner: string, name: string, s: string, o: string, n: string)
    requires PipeFree(server) && PipeFree(owner) && PipeFree(name)
    requires RepositoryKey(s, o, n) == RepositoryKey(server, owner, name)
    ensures s == server && o == owner && n == name
  {
    PipesOfRepositoryKey(s, o, n);
    PipesOfRepositoryKey(server, owner, name);
    PipesZero(s); PipesZero(o); PipesZero(server); PipesZero(owner); PipesZero(name);
    RepositoryKeyInjective(s, o, n, server, owner, name);
  }

  /** A separator moves from one text to the next. */
  lemma MoveBetween(x: string, y: string, owner: string, name: string)
    ensures RepositoryKey(x, y + [PIPE] + owner, name) == RepositoryKey(x + [PIPE] + y, owner, name)
    ensures RepositoryKey(owner, x + [PIPE] + y, name) == RepositoryKey(owner, x, y + [PIPE] + name)
  {
    assert x + [PIPE] + (y + [PIPE] + owner) == x + [PIPE] + y + [PIPE] + owner;
    assert owner + [PIPE] + (x + [PIPE] + y) + [PIPE] + name == owner + [PIPE] + x + [PIPE] + (y + [PIPE] + name);
  }

  lemma RepositoryKeyRival(server: string, owner: string, name: string) returns (s: string, o: string, n: string)
    requires !(PipeFree(server) && PipeFree(owner) && PipeFree(name))
    ensures RepositoryKey(s, o, n) == RepositoryKey(server, owner, name) && (s != server || n != name)
  {
    if !PipeFree(server) {
      var x, y := SplitAtPipe(server);
      s, o, n := x, y + [PIPE] + owner, name;
      MoveBetween(x, y, owner, name);
      assert |x| < |server|;
    } else if !PipeFree(owner) {
      var x, y := SplitAtPipe(owner);
      s, o, n := server, x, y + [PIPE] + name;
      MoveBetween(x, y, server, name);
      assert |n| > |name|;
    } else {
      var x, y := SplitAtPipe(name);
      s, o, n := server, owner + [PIPE] + x, y;
      MoveBetween(owner, x, server, y);
      assert |y| < |name|;
    }
  }

  /** Over all requests, no other shares a repository key if and only if none of its texts has a separator. */
  lemma OwnsRepositoryKeyIff(server: string, owner: string, name: string)
    ensures OwnsRepositoryKey(server, owner, name) <==> PipeFree(server) && PipeFree(owner) && PipeFree(name)
  {
    if PipeFree(server) && PipeFree(owner) && PipeFree(name) {
      forall s: string, o: string, n: string | RepositoryKey(s, o, n) == RepositoryKey(server, owner, name)
        ensures s == server && o == owner && n == name
      {
        PipeFreeOwnsRepositoryKey(server, owner, name, s, o, n);
      }
    } else {
      var s, o, n := RepositoryKeyRival(server, owner, name);
    }
  }
}
