/** The filter expression Bitbucket pipelines are listed with, and the grammar that reads it back. */
module BitbucketQuery {
  import opened Wrappers

  const QUOTE: char := '"'
  const BACKSLASH: char := '\\'

  // ---------- Escaping the ref ----------

  /** strings.ReplaceAll for a one-character pattern. */
  function ReplaceAll(s: string, c: char, with: string): string {
    if s == [] then []
    else (if s[0] == c then with else [s[0]]) + ReplaceAll(s[1..], c, with)
  }

  /** First the backslashes are doubled, then the quotes are given one. */
  function SanitizeRef(ref: string): string {
    ReplaceAll(ReplaceAll(ref, BACKSLASH, [BACKSLASH, BACKSLASH]), QUOTE, [BACKSLASH, QUOTE])
  }

  /** One pass that escapes each special character where it stands. */
  function Escape(s: string): string {
    if s == [] then []
    else (if s[0] == BACKSLASH || s[0] == QUOTE then [BACKSLASH, s[0]] else [s[0]]) + Escape(s[1..])
  }

  lemma {:induction false} ReplaceAllConcat(s: string, t: string, c: char, with: string)
    ensures ReplaceAll(s + t, c, with) == ReplaceAll(s, c, with) + ReplaceAll(t, c, with)
  {
    if s == [] {
      assert s + t == t;
    } else {
      assert (s + t)[1..] == s[1..] + t;
      ReplaceAllConcat(s[1..], t, c, with);
    }
  }

  /** The two passes in this order are one simultaneous escape. */
  lemma {:induction false} SanitizeIsEscape(ref: string)
    ensures SanitizeRef(ref) == Escape(ref)
  {
    if ref != [] {
      var head := if ref[0] == BACKSLASH then [BACKSLASH, BACKSLASH] else [ref[0]];
      var tail := ReplaceAll(ref[1..], BACKSLASH, [BACKSLASH, BACKSLASH]);
      ReplaceAllConcat(head, tail, QUOTE, [BACKSLASH, QUOTE]);
      SanitizeIsEscape(ref[1..]);
      assert ReplaceAll([ref[0]][1..], QUOTE, [BACKSLASH, QUOTE]) == [];
      if ref[0] == BACKSLASH {
        assert head[1..] == [BACKSLASH] && head[1..][1..] == [];
        assert ReplaceAll(head, QUOTE, [BACKSLASH, QUOTE]) == head;
      }
    }
  }

  /** The two passes the other way round: a quote comes out with two backslashes, that is unescaped. */
  function SwappedPasses(ref: string): string {
    ReplaceAll(ReplaceAll(ref, QUOTE, [BACKSLASH, QUOTE]), BACKSLASH, [BACKSLASH, BACKSLASH])
  }

  lemma SwappedHead(ref: string)
    requires ref != []
    ensures SwappedPasses(ref) ==
            (if ref[0] == QUOTE then [BACKSLASH, BACKSLASH, QUOTE]
             else if ref[0] == BACKSLASH then [BACKSLASH, BACKSLASH] else [ref[0]])
            + SwappedPasses(ref[1..])
  {
    var head := if ref[0] == QUOTE then [BACKSLASH, QUOTE] else [ref[0]];
    var tail := ReplaceAll(ref[1..], QUOTE, [BACKSLASH, QUOTE]);
    ReplaceAllConcat(head, tail, BACKSLASH, [BACKSLASH, BACKSLASH]);
    assert head[1..] == if ref[0] == QUOTE then [QUOTE] else [];
    assert ref[0] == QUOTE ==> head[1..][1..] == [];
  }

  lemma {:induction false} SwappedIsLonger(ref: string)
    ensures |SwappedPasses(ref)| >= |Escape(ref)|
    ensures QUOTE in ref ==> |SwappedPasses(ref)| > |Escape(ref)|
    ensures QUOTE !in ref ==> SwappedPasses(ref) == Escape(ref)
  {
    if ref != [] {
      SwappedHead(ref);
      SwappedIsLonger(ref[1..]);
      assert QUOTE in ref <==> ref[0] == QUOTE || QUOTE in ref[1..];
    }
  }

  /** The order of the passes matters exactly for the refs that hold a quote. */
  lemma OrderMattersIff(ref: string)
    ensures SwappedPasses(ref) == SanitizeRef(ref) <==> QUOTE !in ref
  {
    SanitizeIsEscape(ref);
    SwappedIsLonger(ref);
  }

  // ---------- Reading a quoted literal ----------

  /** Reads up to the first quote that no backslash escapes: the value, and what follows the quote. */
  function ScanQuoted(s: string): (r: Option<(string, string)>)
    ensures r.Some? ==> |r.value.1| < |s|
  {
    if s == [] then None
    else if s[0] == '"' then Some(([], s[1..]))
    else if s[0] == '\\' then
      if |s| < 2 then None
      else
        match ScanQuoted(s[2..])
        case None => None
        case Some((v, rest)) => Some(([s[1]] + v, rest))
    else
      match ScanQuoted(s[1..])
      case None => None
      case Some((v, rest)) => Some(([s[0]] + v, rest))
  }

  /** The scanner stops exactly at the quote that closes the literal, and gives the ref back. */
  lemma {:induction false} ScanOfEscape(ref: string, rest: string)
    ensures ScanQuoted(Escape(ref) + [QUOTE] + rest) == Some((ref, rest))
  {
    var s := Escape(ref) + [QUOTE] + rest;
    if ref == [] {
      assert s[1..] == rest;
    } else {
      ScanOfEscape(ref[1..], rest);
      var more := Escape(ref[1..]) + [QUOTE] + rest;
      assert [ref[0]] + ref[1..] == ref;
      if ref[0] == BACKSLASH || ref[0] == QUOTE {
        assert s[0] == BACKSLASH && s[1] == ref[0] && s[2..] == more;
      } else {
        assert s[0] == ref[0] && s[1..] == more;
      }
    }
  }

  // ---------- The query ----------

  /** A comparison of a field with a quoted value. */
  datatype Clause = Clause(field: string, value: string)

  /** The text field="text", with the quoted text put in as it is. */
  function Comparison(field: string, text: string): string {
    field + "=\"" + text + "\""
  }

  function PrintClause(c: Clause): string {
    Comparison(c.field, Escape(c.value))
  }

  /** The unified statuses Bitbucket can be asked for. */
  datatype Asked = Pending | Running | Success | FailedRuns | Cancelled | Manual {
    function Field(): (r: string)
      ensures '=' !in r
    {
      if Success? || FailedRuns? || Cancelled? then "state.result.name" else "state.name"
    }

    function Value(): (r: string)
      ensures BACKSLASH !in r && QUOTE !in r
    {
      match this
      case Pending => "PENDING"
      case Running => "IN_PROGRESS"
      case Success => "SUCCESSFUL"
      case FailedRuns => "FAILED"
      case Cancelled => "STOPPED"
      case Manual => "HALTED"
    }
  }

  function AskedStatus(status: string): Option<Asked> {
    if status == "pending" then Some(Pending)
    else if status == "running" then Some(Running)
    else if status == "success" then Some(Success)
    else if status == "failed" then Some(FailedRuns)
    else if status == "cancelled" then Some(Cancelled)
    else if status == "manual" then Some(Manual)
    else None
  }

  /** The expression for a status, empty when Bitbucket has none; its value is put in unescaped. */
  function MapPipelineStatusToBitbucketQuery(status: string): string {
    match AskedStatus(status)
    case None => ""
    case Some(a) => Comparison(a.Field(), a.Value())
  }

  const REF_NAME: string := "target.ref_name"
  const AND: string := " AND "

  function Join(parts: seq<string>, sep: string): string {
    if parts == [] then "" else if |parts| == 1 then parts[0] else parts[0] + sep + Join(parts[1..], sep)
  }

  /** The query parts as the listing appends them, for a status that is not answered without asking. */
  method BuildQuery(ref: Option<string>, status: Option<string>) returns (q: Option<string>)
    ensures q == Query(ref, status)
  {
    var queryParts: seq<string> := [];
    if ref.Some? && ref.value != "" {
      var sanitizedRef := ReplaceAll(ref.value, BACKSLASH, [BACKSLASH, BACKSLASH]);
      sanitizedRef := ReplaceAll(sanitizedRef, QUOTE, [BACKSLASH, QUOTE]);
      queryParts := queryParts + [Comparison(REF_NAME, sanitizedRef)];
    }
    if status.Some? {
      var statusQuery := MapPipelineStatusToBitbucketQuery(status.value);
      if statusQuery != "" {
        queryParts := queryParts + [statusQuery];
      }
    }
    q := if |queryParts| > 0 then Some(Join(queryParts, AND)) else None;
  }

  function RefParts(ref: Option<string>): seq<string> {
    if ref.Some? && ref.value != "" then [Comparison(REF_NAME, SanitizeRef(ref.value))] else []
  }

  function StatusParts(status: Option<string>): seq<string> {
    if status.Some? && MapPipelineStatusToBitbucketQuery(status.value) != ""
    then [MapPipelineStatusToBitbucketQuery(status.value)] else []
  }

  function Query(ref: Option<string>, status: Option<string>): Option<string> {
    var parts := RefParts(ref) + StatusParts(status);
    if parts == [] then None else Some(Join(parts, AND))
  }

  // ---------- The grammar of queries ----------

  function CutAt(s: string, c: char): (r: Option<(string, string)>)
    ensures r.Some? ==> |r.value.1| < |s|
  {
    if s == [] then None
    else if s[0] == c then Some(([], s[1..]))
    else
      match CutAt(s[1..], c)
      case None => None
      case Some((a, b)) => Some(([s[0]] + a, b))
  }

  /** Reads field="value", any number of times with AND between, to the very end. It knows neither the
      field names nor the values the listing uses. */
  function ParseQuery(q: string): Option<seq<Clause>>
    decreases |q|
  {
    match CutAt(q, '=')
    case None => None
    case Some((field, r1)) =>
      if r1 == [] || r1[0] != '"' then None
      else
        match ScanQuoted(r1[1..])
        case None => None
        case Some((value, rest)) =>
          if rest == [] then Some([Clause(field, value)])
          else if " AND " <= rest then
            match ParseQuery(rest[5..])
            case None => None
            case Some(more) => Some([Clause(field, value)] + more)
          else None
  }

  lemma {:induction false} CutAtOfJoin(a: string, c: char, b: string)
    requires c !in a
    ensures CutAt(a + [c] + b, c) == Some((a, b))
  {
    var s := a + [c] + b;
    if a == [] {
      assert s[1..] == b;
    } else {
      assert a[0] in a;
      assert s[1..] == a[1..] + [c] + b;
      CutAtOfJoin(a[1..], c, b);
      assert [a[0]] + a[1..] == a;
    }
  }

  /** Printing one clause in front of a query puts that clause in front of what the query says. */
  lemma ParseClause(c: Clause, rest: string)
    requires '=' !in c.field
    ensures rest == [] ==> ParseQuery(PrintClause(c) + rest) == Some([c])
    ensures AND <= rest ==>
              ParseQuery(PrintClause(c) + rest) ==
              match ParseQuery(rest[|AND|..])
              case None => None
              case Some(more) => Some([c] + more)
  {
    var q := PrintClause(c) + rest;
    var quoted := Escape(c.value) + [QUOTE] + rest;
    assert q == c.field + ['='] + ([QUOTE] + quoted);
    CutAtOfJoin(c.field, '=', [QUOTE] + quoted);
    assert ([QUOTE] + quoted)[1..] == quoted;
    ScanOfEscape(c.value, rest);
  }

  // ---------- What the query says ----------

  function StatusMeaning(status: Option<string>): seq<Clause> {
    if status.None? then []
    else
      match AskedStatus(status.value)
      case None => []
      case Some(a) => [Clause(a.Field(), a.Value())]
  }

  /** The comparisons a listing with this ref and this status means. */
  function Meaning(ref: Option<string>, status: Option<string>): seq<Clause> {
    (if ref.Some? && ref.value != "" then [Clause(REF_NAME, ref.value)] else [])
    + StatusMeaning(status)
  }

  lemma {:induction false} EscapePlain(s: string)
    requires BACKSLASH !in s && QUOTE !in s
    ensures Escape(s) == s
  {
    if s != [] {
      assert s[0] in s;
      assert forall x :: x in s[1..] ==> x in s;
      EscapePlain(s[1..]);
      assert s == [s[0]] + s[1..];
    }
  }

  lemma AskedPrints(a: Asked)
    ensures '=' !in a.Field() && Comparison(a.Field(), a.Value()) == PrintClause(Clause(a.Field(), a.Value()))
  {
    EscapePlain(a.Value());
  }

  lemma StatusPrints(status: Option<string>)
    ensures StatusMeaning(status) == [] ==> StatusParts(status) == []
    ensures StatusMeaning(status) != [] ==>
              && |StatusMeaning(status)| == 1 && '=' !in StatusMeaning(status)[0].field
              && StatusParts(status) == [PrintClause(StatusMeaning(status)[0])]
  {
    if status.Some? && AskedStatus(status.value).Some? {
      AskedPrints(AskedStatus(status.value).value);
    }
  }

  lemma RefPrints(ref: string)
    ensures '=' !in REF_NAME
    ensures Comparison(REF_NAME, SanitizeRef(ref)) == PrintClause(Clause(REF_NAME, ref))
  {
    SanitizeIsEscape(ref);
  }

  /** A query of two clauses. */
  lemma ParseTwo(c: Clause, d: Clause)
    requires '=' !in c.field && '=' !in d.field
    ensures ParseQuery(Join([PrintClause(c), PrintClause(d)], AND)) == Some([c, d])
  {
    var last := PrintClause(d);
    assert [PrintClause(c), last][1..] == [last];
    assert Join([last], AND) == last;
    assert Join([PrintClause(c), last], AND) == PrintClause(c) + (AND + last);
    ParseClause(c, AND + last);
    assert (AND + last)[|AND|..] == last;
    ParseOne(d);
    assert [c] + [d] == [c, d];
  }

  lemma ParseOne(c: Clause)
    requires '=' !in c.field
    ensures ParseQuery(PrintClause(c)) == Some([c])
  {
    ParseClause(c, []);
    assert PrintClause(c) + [] == PrintClause(c);
  }

  /** For every ref and status, whatever characters the ref holds, the query that is sent reads back as
      exactly the ref comparison and the status comparison; it is absent when there is neither. */
  lemma QueryMeansTheFilter(ref: Option<string>, status: Option<string>)
    ensures Query(ref, status).None? <==> Meaning(ref, status) == []
    ensures Query(ref, status).Some? ==> ParseQuery(Query(ref, status).value) == Some(Meaning(ref, status))
  {
    StatusPrints(status);
    var sm := StatusMeaning(status);
    if ref.Some? && ref.value != "" {
      RefPrints(ref.value);
      var rc := Clause(REF_NAME, ref.value);
      if sm == [] {
        ParseOne(rc);
        assert Meaning(ref, status) == [rc];
        assert RefParts(ref) + StatusParts(status) == [PrintClause(rc)];
      } else {
        ParseTwo(rc, sm[0]);
        assert Meaning(ref, status) == [rc, sm[0]];
        assert RefParts(ref) + StatusParts(status) == [PrintClause(rc), PrintClause(sm[0])];
      }
    } else if sm != [] {
      ParseOne(sm[0]);
      assert Meaning(ref, status) == [sm[0]];
      assert RefParts(ref) + StatusParts(status) == [PrintClause(sm[0])];
    }
  }

  // ---------- Which pipelines it selects ----------

  /** A pipeline of Bitbucket's, as far as queries and the listing look at it; only a completed one has a
      result. */
  datatype Pipeline = Pipeline(refName: string, stateName: string, resultName: Option<string>) {
    predicate Valid() {
      resultName.Some? ==> stateName == "COMPLETED"
    }

    /** What a query finds under a field name; a name no pipeline has finds nothing. */
    function At(field: string): Option<string> {
      if field == "target.ref_name" then Some(refName)
      else if field == "state.name" then Some(stateName)
      else if field == "state.result.name" then resultName
      else None
    }

    predicate Satisfies(clauses: seq<Clause>) {
      forall c :: c in clauses ==> At(c.field) == Some(c.value)
    }
  }

  /** The unified status a pipeline is listed with. */
  function NormalizeBitbucketPipelineStatus(stateName: string, resultName: string): string {
    if stateName == "PENDING" then "pending"
    else if stateName == "IN_PROGRESS" then "running"
    else if stateName == "COMPLETED" then
      if resultName == "SUCCESSFUL" then "success"
      else if resultName == "FAILED" || resultName == "ERROR" then "failed"
      else if resultName == "STOPPED" || resultName == "EXPIRED" then "cancelled"
      else "failed"
    else if stateName == "HALTED" || stateName == "PAUSED" then "manual"
    else "pending"
  }

  function ListedStatus(p: Pipeline): string {
    NormalizeBitbucketPipelineStatus(p.stateName, p.resultName.GetOr(""))
  }

  /** The statuses a query can ask for. */
  predicate HasClause(status: string) {
    status == "pending" || status == "running" || status == "success" || status == "failed" || status == "cancelled"
    || status == "manual"
  }

  /** The pipelines of a status that its clause misses, as the source says: other states or results that are
      listed alike. */
  predicate SubState(p: Pipeline) {
    if p.stateName == "COMPLETED" then
      p.resultName != Some("SUCCESSFUL") && p.resultName != Some("FAILED") && p.resultName != Some("STOPPED")
    else p.stateName != "PENDING" && p.stateName != "IN_PROGRESS" && p.stateName != "HALTED"
  }

  lemma StatusSelects(status: string, p: Pipeline)
    requires p.Valid() && HasClause(status)
    ensures |StatusMeaning(Some(status))| == 1
    ensures var c := StatusMeaning(Some(status))[0];
            p.At(c.field) == Some(c.value) <==> ListedStatus(p) == status && !SubState(p)
  {
  }

  /** The pipelines a status clause misses although they are listed with that status. */
  lemma ClauseMisses(p: Pipeline)
    requires p.Valid() && SubState(p)
    ensures ListedStatus(p) ==
            if p.stateName == "COMPLETED" && p.resultName == Some("EXPIRED") then "cancelled"
            else if p.stateName == "COMPLETED" then "failed"
            else if p.stateName == "PAUSED" then "manual"
            else "pending"
    ensures HasClause(ListedStatus(p))
    ensures !p.Satisfies(StatusMeaning(Some(ListedStatus(p))))
  {
    StatusSelects(ListedStatus(p), p);
    assert StatusMeaning(Some(ListedStatus(p)))[0] in StatusMeaning(Some(ListedStatus(p)));
  }

  /** The query that is sent selects, among all pipelines, exactly those of the ref asked for, if one is, that
      will be listed with the status asked for, if it has a clause, except those in another state or with
      another result that is listed alike. */
  lemma QuerySelects(ref: Option<string>, status: Option<string>, p: Pipeline)
    requires p.Valid() && Query(ref, status).Some?
    ensures var clauses := ParseQuery(Query(ref, status).value);
            && clauses.Some?
            && (p.Satisfies(clauses.value) <==>
                  && (ref.Some? && ref.value != "" ==> p.refName == ref.value)
                  && (status.Some? && HasClause(status.value) ==> ListedStatus(p) == status.value && !SubState(p)))
  {
    QueryMeansTheFilter(ref, status);
    var refs := if ref.Some? && ref.value != "" then [Clause(REF_NAME, ref.value)] else [];
    var more := StatusMeaning(status);
    assert forall c :: c in Meaning(ref, status) <==> c in refs || c in more;
    if status.Some? && HasClause(status.value) {
      StatusSelects(status.value, p);
      assert more == [more[0]];
    } else {
      assert more == [];
    }
  }
}
