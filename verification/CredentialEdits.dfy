/** Optimistic concurrency on one credential (engramia/api/credentials.py with
    the compare-and-set of engramia/credentials/store.py), and its audit diffs. */
module CredentialEdits {
  import opened Options
  import Jaccard

  type Time = int   // microseconds since the epoch

  type RoleModels = map<string, string>

  // ----- entity tags -----------------------------------------------------------------

  /** ISO-8601 formatting and parsing of timestamps. */
  datatype Codec = Codec(format: Time -> string, parse: string -> Option<Time>)

  predicate Bare(s: string) {
    s != [] && s[0] != '"' && s[|s| - 1] != '"'
  }

  /** What is formatted parses back, and carries no quotes at its ends. */
  ghost predicate Faithful(c: Codec) {
    forall t :: c.parse(c.format(t)) == Some(t) && Bare(c.format(t))
  }

  function StripQuotesLeft(s: string): string {
    if s != [] && s[0] == '"' then StripQuotesLeft(s[1..]) else s
  }

  function StripQuotesRight(s: string): string {
    if s != [] && s[|s| - 1] == '"' then StripQuotesRight(s[..|s| - 1]) else s
  }

  function EtagFrom(c: Codec, updatedAt: Time): string {
    "\"" + c.format(updatedAt) + "\""
  }

  /** None when the header is absent or empty; a header that does not parse reads
      as the epoch. */
  function ParseIfMatch(c: Codec, header: Option<string>): Option<Time> {
    if header.None? || header.value == "" then None else
      var raw := StripQuotesRight(StripQuotesLeft(Jaccard.StripRight(Jaccard.StripLeft(header.value))));
      match c.parse(raw)
      case Some(t) => Some(t)
      case None => Some(0)
  }

  datatype Precondition = Missing | Failed | Met(tag: Time)

  function RequireIfMatch(c: Codec, header: Option<string>, updatedAt: Time): Precondition {
    if header.None? || header.value == "" then Missing
    else if ParseIfMatch(c, header) != Some(updatedAt) then Failed
    else Met(updatedAt)
  }

  lemma QuotesComeOff(s: string)
    requires Bare(s)
    ensures StripQuotesRight(StripQuotesLeft(Jaccard.StripRight(Jaccard.StripLeft("\"" + s + "\"")))) == s
  {
    var q := "\"" + s + "\"";
    assert Jaccard.StripRight(Jaccard.StripLeft(q)) == q;
    assert q[1..] == s + "\"";
    assert StripQuotesLeft(q) == StripQuotesLeft(s + "\"") == s + "\"";
    assert (s + "\"")[..|s|] == s;
    assert StripQuotesRight(s + "\"") == StripQuotesRight(s) == s;
  }

  /** The tag a client was given is accepted exactly for the version it names. */
  lemma EtagNamesVersion(c: Codec, given: Time, current: Time)
    requires Faithful(c)
    ensures RequireIfMatch(c, Some(EtagFrom(c, given)), current) == if given == current then Met(current) else Failed
  {
    QuotesComeOff(c.format(given));
  }

  predicate Quotes(s: string) {
    forall k :: 0 <= k < |s| ==> s[k] == '"'
  }

  predicate Spaces(s: string) {
    forall k :: 0 <= k < |s| ==> Jaccard.IsSpace(s[k])
  }

  lemma {:induction false} QuotesLeftOff(q: string, s: string)
    requires Quotes(q) && (s != [] ==> s[0] != '"')
    ensures StripQuotesLeft(q + s) == s
  {
    if q == [] {
      assert q + s == s;
    } else {
      assert (q + s)[1..] == q[1..] + s;
      QuotesLeftOff(q[1..], s);
    }
  }

  lemma {:induction false} QuotesRightOff(s: string, q: string)
    requires Quotes(q) && (s != [] ==> s[|s| - 1] != '"')
    ensures StripQuotesRight(s + q) == s
  {
    if q == [] {
      assert s + q == s;
    } else {
      var n := |q| - 1;
      assert (s + q)[..|s| + n] == s + q[..n];
      QuotesRightOff(s, q[..n]);
    }
  }

  lemma {:induction false} SpacesLeftOff(sp: string, s: string)
    requires Spaces(sp) && (s != [] ==> !Jaccard.IsSpace(s[0]))
    ensures Jaccard.StripLeft(sp + s) == s
  {
    if sp == [] {
      assert sp + s == s;
    } else {
      assert (sp + s)[1..] == sp[1..] + s;
      SpacesLeftOff(sp[1..], s);
    }
  }

  lemma {:induction false} SpacesRightOff(s: string, sp: string)
    requires Spaces(sp) && (s != [] ==> !Jaccard.IsSpace(s[|s| - 1]))
    ensures Jaccard.StripRight(s + sp) == s
  {
    if sp == [] {
      assert s + sp == s;
    } else {
      var n := |sp| - 1;
      assert (s + sp)[..|s| + n] == s + sp[..n];
      SpacesRightOff(s, sp[..n]);
    }
  }

  /** A tag that starts and ends with neither quote nor space. */
  predicate BareTag(s: string) {
    Bare(s) && !Jaccard.IsSpace(s[0]) && !Jaccard.IsSpace(s[|s| - 1])
  }

  lemma QuotedEnds(q: string, s: string, r: string)
    requires Quotes(q) && Quotes(r) && BareTag(s)
    ensures q + s + r != [] && !Jaccard.IsSpace((q + s + r)[0]) && !Jaccard.IsSpace((q + s + r)[|q + s + r| - 1])
  {}

  /** A header names the time its bare tag parses to, whatever quotes stand around
      it and spaces around these; a tag that does not parse names the epoch. */
  lemma HeaderNames(c: Codec, sp: string, q: string, s: string, r: string, sp': string)
    requires Spaces(sp) && Spaces(sp') && Quotes(q) && Quotes(r) && BareTag(s)
    ensures ParseIfMatch(c, Some(sp + (q + s + r) + sp')) == Some(if c.parse(s).Some? then c.parse(s).value else 0)
  {
    var quoted := q + s + r;
    QuotedEnds(q, s, r);
    assert sp + quoted + sp' == sp + (quoted + sp');
    SpacesLeftOff(sp, quoted + sp');
    SpacesRightOff(quoted, sp');
    assert quoted == q + (s + r);
    QuotesLeftOff(q, s + r);
    QuotesRightOff(s, r);
  }

  lemma NoHeaderNamesNothing(c: Codec, header: Option<string>)
    ensures ParseIfMatch(c, header).None? <==> header.None? || header.value == ""
  {}

  // ----- audit diffs --------------------------------------------------------------------

  datatype Diff<V> = Diff(added: map<string, V>, removed: set<string>, changed: map<string, (V, V)>)

  function DiffOf<V(==)>(before: map<string, V>, after: map<string, V>): Diff<V> {
    Diff(map k | k in after && k !in before :: after[k],
         set k | k in before && k !in after,
         map k | k in before && k in after && before[k] != after[k] :: (before[k], after[k]))
  }

  /** What each part of a diff lists. */
  lemma DiffLists<V>(before: map<string, V>, after: map<string, V>, k: string)
    ensures var d := DiffOf(before, after);
            && (k in d.added <==> k in after && k !in before) && (k in d.added ==> d.added[k] == after[k])
            && (k in d.removed <==> k in before && k !in after)
            && (k in d.changed <==> k in before && k in after && before[k] != after[k])
            && (k in d.changed ==> d.changed[k] == (before[k], after[k]))
  {}

  function ApplyDiff<V>(m: map<string, V>, d: Diff<V>): map<string, V> {
    (m - d.removed) + d.added + (map k | k in d.changed :: d.changed[k].1)
  }

  function Inverse<V>(d: Diff<V>, before: map<string, V>): Diff<V> {
    Diff(map k | k in before && k in d.removed :: before[k], d.added.Keys,
         map k | k in d.changed :: (d.changed[k].1, d.changed[k].0))
  }

  predicate EmptyDiff<V(==)>(d: Diff<V>) {
    d.added == map[] && d.removed == {} && d.changed == map[]
  }

  /** The published diff, applied to the old map, yields exactly the new one and
      is undone by swapping its sides; it is empty if and only if nothing changed. */
  lemma DiffIsExact<V>(before: map<string, V>, after: map<string, V>)
    ensures ApplyDiff(before, DiffOf(before, after)) == after
    ensures Inverse(DiffOf(before, after), before) == DiffOf(after, before)
    ensures EmptyDiff(DiffOf(before, after)) <==> before == after
  {
    var d := DiffOf(before, after);
    assert ApplyDiff(before, d) == after;
    assert Inverse(d, before) == DiffOf(after, before);
    if before == after {
      assert d.added == map[] && d.changed == map[];
    }
  }

  // ----- the handler on its own ------------------------------------------------------------

  datatype Credential = Credential(updatedAt: Time, roleModels: RoleModels, costLimits: map<string, int>)

  datatype Response =
    | NotFound
    | EntitlementRequired
    | PreconditionRequired
    | PreconditionFailed
    | Updated(etag: string, diff: Diff<string>)

  datatype PatchOutcome = PatchUpdated | PatchPreconditionFailed | PatchNotFound

  class CredentialStore {
    var row: Option<Credential>

    constructor (row: Option<Credential>)
      ensures this.row == row
    {
      this.row := row;
    }

    /** UPDATE ... WHERE updated_at = :etag; the new row's tag is the database
        clock. */
    method Patch(roleModels: RoleModels, ifMatch: Time, now: Time) returns (outcome: PatchOutcome)
      modifies this
      ensures outcome == PatchUpdated <==> old(row).Some? && old(row).value.updatedAt == ifMatch
      ensures outcome == PatchNotFound <==> old(row).None?
      ensures row == if outcome == PatchUpdated
                     then Some(old(row).value.(roleModels := roleModels, updatedAt := now)) else old(row)
    {
      if row.Some? && row.value.updatedAt == ifMatch {
        row := Some(row.value.(roleModels := roleModels, updatedAt := now));
        return PatchUpdated;
      }
      return if row.Some? then PatchPreconditionFailed else PatchNotFound;
    }

    /** PATCH role-models without a concurrent writer. Clearing the map needs no
        entitlement; the entitlement is checked before the precondition. */
    method UpdateRoleModels(c: Codec, header: Option<string>, body: RoleModels, entitled: bool, now: Time)
      returns (r: Response)
      modifies this
      ensures r == NotFound <==> old(row).None?
      ensures r == EntitlementRequired <==> old(row).Some? && body != map[] && !entitled
      ensures r == PreconditionRequired <==>
                old(row).Some? && (body == map[] || entitled) && (header.None? || header.value == "")
      ensures r.Updated? <==> (old(row).Some? && (body == map[] || entitled) && header.Some? && header.value != ""
                               && ParseIfMatch(c, header) == Some(old(row).value.updatedAt))
      ensures r.Updated? ==> r.etag == EtagFrom(c, now) && ApplyDiff(old(row).value.roleModels, r.diff) == body
      ensures row == if r.Updated? then Some(old(row).value.(roleModels := body, updatedAt := now)) else old(row)
    {
      if row.None? {
        return NotFound;
      }
      var existing := row.value;
      if body != map[] && !entitled {
        return EntitlementRequired;
      }
      match RequireIfMatch(c, header, existing.updatedAt) {
        case Missing => return PreconditionRequired;
        case Failed => return PreconditionFailed;
        case Met(tag) =>
          var outcome := Patch(body, tag, now);
          DiffIsExact(existing.roleModels, body);
          return Updated(EtagFrom(c, row.value.updatedAt), DiffOf(existing.roleModels, body));
      }
    }
  }

  // ----- admins editing at the same time ---------------------------------------------------------

  datatype Version = Version(tag: Time, models: RoleModels)

  /** An accepted edit: the tag it named, the map its audit diff starts from, and
      the version it made. */
  datatype Edit = Edit(named: Time, before: RoleModels, made: Version)

  /** `versions` is the history of the row, the current one last; `reading` holds
      the row each running request has read and matched. */
  datatype World = World(versions: seq<Version>, reading: map<nat, Version>, edits: seq<Edit>)

  datatype Event =
    | Read(op: nat, named: Time)
    | Commit(op: nat, models: RoleModels, newTag: Time)
    | OtherWrite(made: Version)   // any unconditional write, with its fresh tag

  predicate Fresh(w: World, tag: Time) {
    forall i :: 0 <= i < |w.versions| ==> w.versions[i].tag != tag
  }

  predicate Legal(w: World, e: Event) {
    w.versions != [] &&
    match e
    case Read(op, _) => op !in w.reading
    case Commit(op, _, newTag) => op in w.reading && Fresh(w, newTag)
    case OtherWrite(made) => Fresh(w, made.tag)
  }

  function Current(w: World): Version
    requires w.versions != []
  {
    w.versions[|w.versions| - 1]
  }

  function Step(w: World, e: Event): World
    requires Legal(w, e)
  {
    match e
    case Read(op, named) =>
      if named == Current(w).tag then w.(reading := w.reading[op := Current(w)]) else w
    case Commit(op, models, newTag) =>
      var existing := w.reading[op];
      if existing.tag == Current(w).tag
      then World(w.versions + [Version(newTag, models)], w.reading - {op},
                 w.edits + [Edit(existing.tag, existing.models, Version(newTag, models))])
      else w.(reading := w.reading - {op})
    case OtherWrite(made) => w.(versions := w.versions + [made])
  }

  predicate LegalRun(w: World, es: seq<Event>)
    decreases |es|
  {
    es == [] || (Legal(w, es[0]) && LegalRun(Step(w, es[0]), es[1..]))
  }

  function Run(w: World, es: seq<Event>): World
    requires LegalRun(w, es)
    decreases |es|
  {
    if es == [] then w else Run(Step(w, es[0]), es[1..])
  }

  ghost predicate TagsDistinct(versions: seq<Version>) {
    forall i, j :: 0 <= i < j < |versions| ==> versions[i].tag != versions[j].tag
  }

  /** The edit replaced version i, named its tag, and started its diff from it. */
  predicate Replaces(versions: seq<Version>, e: Edit, i: nat) {
    i + 1 < |versions| && versions[i] == Version(e.named, e.before) && versions[i + 1] == e.made
  }

  ghost predicate Chained(versions: seq<Version>, edits: seq<Edit>) {
    forall k :: 0 <= k < |edits| ==> Placed(versions, edits[k])
  }

  ghost predicate Placed(versions: seq<Version>, e: Edit) {
    exists i :: Replaces(versions, e, i)
  }

  /** Later edits replaced later versions. */
  ghost predicate InOrder(versions: seq<Version>, edits: seq<Edit>) {
    forall k, l, i, j ::
      0 <= k < l < |edits| && Replaces(versions, edits[k], i) && Replaces(versions, edits[l], j) ==> i < j
  }

  ghost predicate Inv(w: World) {
    && w.versions != [] && TagsDistinct(w.versions)
    && (forall op :: op in w.reading ==> w.reading[op] in w.versions)
    && Chained(w.versions, w.edits) && InOrder(w.versions, w.edits)
  }

  lemma ReplacesIsUnique(versions: seq<Version>, e: Edit, i: nat, j: nat)
    requires TagsDistinct(versions) && Replaces(versions, e, i) && Replaces(versions, e, j)
    ensures i == j
  {}

  lemma PlaceGrows(versions: seq<Version>, v: Version, e: Edit) returns (i: nat)
    requires Placed(versions, e)
    ensures Replaces(versions, e, i) && Replaces(versions + [v], e, i)
  {
    i :| Replaces(versions, e, i);
  }

  lemma GrowthKeepsChain(versions: seq<Version>, v: Version, edits: seq<Edit>)
    requires TagsDistinct(versions + [v]) && Chained(versions, edits) && InOrder(versions, edits)
    ensures Chained(versions + [v], edits) && InOrder(versions + [v], edits)
  {
    var grown := versions + [v];
    forall k | 0 <= k < |edits|
      ensures Placed(grown, edits[k])
    {
      var i := PlaceGrows(versions, v, edits[k]);
    }
    forall k, l, i, j | 0 <= k < l < |edits| && Replaces(grown, edits[k], i) && Replaces(grown, edits[l], j)
      ensures i < j
    {
      var i' := PlaceGrows(versions, v, edits[k]);
      var j' := PlaceGrows(versions, v, edits[l]);
      ReplacesIsUnique(grown, edits[k], i, i');
      ReplacesIsUnique(grown, edits[l], j, j');
    }
  }

  lemma CommitKeepsChain(versions: seq<Version>, edits: seq<Edit>, e: Edit)
    requires versions != [] && TagsDistinct(versions + [e.made]) && Chained(versions, edits) && InOrder(versions, edits)
    requires versions[|versions| - 1] == Version(e.named, e.before)
    ensures Chained(versions + [e.made], edits + [e]) && InOrder(versions + [e.made], edits + [e])
  {
    var grown, n := versions + [e.made], |versions| - 1;
    GrowthKeepsChain(versions, e.made, edits);
    assert Replaces(grown, e, n);
    forall k, l, i, j | 0 <= k < l < |edits| + 1
      && Replaces(grown, (edits + [e])[k], i) && Replaces(grown, (edits + [e])[l], j)
      ensures i < j
    {
      if l == |edits| {
        ReplacesIsUnique(grown, e, j, n);
        var i' := PlaceGrows(versions, e.made, edits[k]);
        ReplacesIsUnique(grown, edits[k], i, i');
      } else {
        assert Replaces(grown, edits[k], i) && Replaces(grown, edits[l], j);
      }
    }
  }

  lemma StepKeepsInv(w: World, e: Event)
    requires Inv(w) && Legal(w, e)
    ensures Inv(Step(w, e))
  {
    match e
    case Read(_, _) =>
    case Commit(op, models, newTag) =>
      var existing := w.reading[op];
      if existing.tag == Current(w).tag {
        assert existing == Current(w);
        CommitKeepsChain(w.versions, w.edits, Edit(existing.tag, existing.models, Version(newTag, models)));
      }
    case OtherWrite(made) =>
      GrowthKeepsChain(w.versions, made, w.edits);
  }

  lemma {:induction false} RunKeepsInv(w: World, es: seq<Event>)
    requires Inv(w) && LegalRun(w, es)
    ensures Inv(Run(w, es))
    decreases |es|
  {
    if es == [] {
    } else {
      StepKeepsInv(w, es[0]);
      RunKeepsInv(Step(w, es[0]), es[1..]);
    }
  }

  /** A commit is accepted exactly when the version its request read is still the
      current one, and then it adds the new version, with what it replaced. */
  lemma CommitAcceptedIff(w: World, op: nat, models: RoleModels, newTag: Time)
    requires Inv(w) && Legal(w, Commit(op, models, newTag))
    ensures var w' := Step(w, Commit(op, models, newTag));
            var current := Current(w);
            if w.reading[op] == current
            then w'.versions == w.versions + [Version(newTag, models)]
                 && w'.edits == w.edits + [Edit(current.tag, current.models, Version(newTag, models))]
            else w'.versions == w.versions && w'.edits == w.edits
  {
    assert w.reading[op] in w.versions;
  }

  /** An edit that names the current tag, with nobody in between, is accepted; one
      that another write overtakes is not. */
  lemma EditIsAcceptedIff(w: World, op: nat, other: Version, overtaken: bool, models: RoleModels, newTag: Time)
    requires Inv(w) && op !in w.reading && Fresh(w, newTag) && Fresh(w, other.tag) && newTag != other.tag
    ensures var read := Step(w, Read(op, Current(w).tag));
            var before := if overtaken then Step(read, OtherWrite(other)) else read;
            && Legal(w, Read(op, Current(w).tag)) && Legal(before, Commit(op, models, newTag))
            && |Step(before, Commit(op, models, newTag)).edits| == |w.edits| + (if overtaken then 0 else 1)
  {
    var read := Step(w, Read(op, Current(w).tag));
    assert read.reading[op] == Current(w);
    if overtaken {
      assert Current(Step(read, OtherWrite(other))) == other;
      assert w.versions[|w.versions| - 1].tag != other.tag;
    }
  }

  /** Under every interleaving of admins and other writers, every accepted edit
      named the tag of the very version it replaced, and its audit diff leads from
      that version's map to the one it made. */
  lemma AcceptedEditIsPlaced(first: Version, es: seq<Event>, k: nat)
    requires LegalRun(World([first], map[], []), es)
    requires k < |Run(World([first], map[], []), es).edits|
    ensures var w := Run(World([first], map[], []), es);
            && (exists i :: Replaces(w.versions, w.edits[k], i))
            && ApplyDiff(w.edits[k].before, DiffOf(w.edits[k].before, w.edits[k].made.models)) == w.edits[k].made.models
  {
    RunKeepsInv(World([first], map[], []), es);
    var w := Run(World([first], map[], []), es);
    assert Placed(w.versions, w.edits[k]);
    DiffIsExact(w.edits[k].before, w.edits[k].made.models);
  }

  /** ... and no two accepted edits replaced the same version: no update is lost. */
  lemma EditsFormAChain(first: Version, es: seq<Event>, k: nat, l: nat)
    requires LegalRun(World([first], map[], []), es)
    requires k < l < |Run(World([first], map[], []), es).edits|
    ensures var w := Run(World([first], map[], []), es);
            && (exists i, j :: Replaces(w.versions, w.edits[k], i) && Replaces(w.versions, w.edits[l], j) && i < j)
            && w.edits[k].named != w.edits[l].named
  {
    RunKeepsInv(World([first], map[], []), es);
    var w := Run(World([first], map[], []), es);
    assert Placed(w.versions, w.edits[k]) && Placed(w.versions, w.edits[l]);
    var i :| Replaces(w.versions, w.edits[k], i);
    var j :| Replaces(w.versions, w.edits[l], j);
  }

  // ----- the edits as the whole history -----------------------------------------------------------

  function OtherWrites(es: seq<Event>): nat {
    if es == [] then 0 else (if es[0].OtherWrite? then 1 else 0) + OtherWrites(es[1..])
  }

  /** The k-th edit replaced the k-th version, and there are no further ones. */
  ghost predicate WholeHistory(versions: seq<Version>, edits: seq<Edit>) {
    |versions| == |edits| + 1 && forall k :: 0 <= k < |edits| ==> Replaces(versions, edits[k], k)
  }

  lemma {:induction false} VersionsAreCounted(w: World, es: seq<Event>)
    requires LegalRun(w, es)
    ensures |Run(w, es).versions| - |Run(w, es).edits| == |w.versions| - |w.edits| + OtherWrites(es)
    decreases |es|
  {
    if es == [] {
    } else {
      VersionsAreCounted(Step(w, es[0]), es[1..]);
    }
  }

  lemma StepExtendsHistory(w: World, e: Event)
    requires Inv(w) && Legal(w, e) && !e.OtherWrite? && WholeHistory(w.versions, w.edits)
    ensures WholeHistory(Step(w, e).versions, Step(w, e).edits)
  {
    if e.Commit? && w.reading[e.op].tag == Current(w).tag {
      assert w.reading[e.op] == Current(w);
      var w' := Step(w, e);
      forall k | 0 <= k < |w'.edits|
        ensures Replaces(w'.versions, w'.edits[k], k)
      {
        assert k < |w.edits| ==> Replaces(w.versions, w.edits[k], k);
      }
    }
  }

  lemma {:induction false} RunExtendsHistory(w: World, es: seq<Event>)
    requires Inv(w) && LegalRun(w, es) && OtherWrites(es) == 0 && WholeHistory(w.versions, w.edits)
    ensures WholeHistory(Run(w, es).versions, Run(w, es).edits)
    decreases |es|
  {
    if es == [] {
    } else {
      StepKeepsInv(w, es[0]);
      StepExtendsHistory(w, es[0]);
      RunExtendsHistory(Step(w, es[0]), es[1..]);
    }
  }

  /** The accepted edits, each replacing the version after the one before it, are
      the whole version history if and only if nothing else wrote the row. */
  lemma EditsAreTheHistory(first: Version, es: seq<Event>)
    requires LegalRun(World([first], map[], []), es)
    ensures var w := Run(World([first], map[], []), es);
            WholeHistory(w.versions, w.edits) <==> OtherWrites(es) == 0
  {
    var w := World([first], map[], []);
    VersionsAreCounted(w, es);
    if OtherWrites(es) == 0 {
      RunExtendsHistory(w, es);
    }
  }

  /** The map that the published diffs lead to, applied one after the other. */
  function Replayed(m: RoleModels, edits: seq<Edit>): RoleModels {
    if edits == [] then m else
      var e := edits[|edits| - 1];
      ApplyDiff(Replayed(m, edits[..|edits| - 1]), DiffOf(e.before, e.made.models))
  }

  lemma ReplayOneMore(m: RoleModels, edits: seq<Edit>, e: Edit)
    requires Replayed(m, edits) == e.before
    ensures Replayed(m, edits + [e]) == e.made.models
  {
    assert (edits + [e])[..|edits|] == edits;
    DiffIsExact(e.before, e.made.models);
  }

  lemma {:induction false} ReplayFollowsHistory(versions: seq<Version>, edits: seq<Edit>, n: nat)
    requires WholeHistory(versions, edits) && n <= |edits|
    ensures Replayed(versions[0].models, edits[..n]) == versions[n].models
  {
    if n == 0 {
    } else {
      ReplayFollowsHistory(versions, edits, n - 1);
      assert Replaces(versions, edits[n - 1], n - 1);
      ReplayOneMore(versions[0].models, edits[..n - 1], edits[n - 1]);
      assert edits[..n] == edits[..n - 1] + [edits[n - 1]];
    }
  }

  /** Then each edit names the version the one before it made, and replaying the
      audit diffs from the first map gives the current one. */
  lemma AuditTrailReplays(first: Version, es: seq<Event>, k: nat)
    requires LegalRun(World([first], map[], []), es) && OtherWrites(es) == 0
    ensures var w := Run(World([first], map[], []), es);
            && (k + 1 < |w.edits| ==> Version(w.edits[k + 1].named, w.edits[k + 1].before) == w.edits[k].made)
            && w.versions != [] && Replayed(first.models, w.edits) == Current(w).models
  {
    var w := Run(World([first], map[], []), es);
    EditsAreTheHistory(first, es);
    FirstVersionStays(World([first], map[], []), es);
    ReplayFollowsHistory(w.versions, w.edits, |w.edits|);
    assert w.edits[..|w.edits|] == w.edits;
    if k + 1 < |w.edits| {
      assert Replaces(w.versions, w.edits[k], k) && Replaces(w.versions, w.edits[k + 1], k + 1);
    }
  }

  lemma {:induction false} FirstVersionStays(w: World, es: seq<Event>)
    requires w.versions != [] && LegalRun(w, es)
    ensures Run(w, es).versions != [] && Run(w, es).versions[0] == w.versions[0]
    decreases |es|
  {
    if es == [] {
    } else {
      FirstVersionStays(Step(w, es[0]), es[1..]);
    }
  }
}
