/** The write-once prompt registry: version files are registered once, later edits are drift, and each
    lab's bindings point at registered versions. */
module Prompts {
  import opened Options
  import opened Sorting
  import opened Strings
  import RunModel

  type Prompt = RunModel.Prompt

  /** An entry of a prompt directory; two names can spell one version (`v1.md`, `v01.md`). */
  datatype Entry = Entry(name: string, isFile: bool, text: string)

  /** One `prompts/<lab>/<slug>` directory, entries in the order the file system lists them. */
  datatype Line = Line(slug: string, entries: seq<Entry>)

  /** A dictionary from versions to texts, with its insertion order. */
  datatype Versions = Versions(order: seq<nat>, texts: map<nat, string>)

  const NO_VERSIONS := Versions([], map[])

  /** What a lab spec contributes: its key, `prompts.active`, and its prompt directories sorted by name
      (`None` without an instance directory or without a directory for the lab). */
  datatype LabSpec = LabSpec(project: string, slug: string, active: map<string, nat>, tree: Option<seq<Line>>)

  /** A lab's registered prompts, oldest first, and its bindings. */
  datatype Lab = Lab(prompts: seq<Prompt>, bindings: map<string, nat>)

  type Labs = map<(string, string), Lab>

  datatype Drift = Drift(slug: string, version: nat)

  /** What syncing prompt lines leaves: the rows, the drift found, and the versions present by slug. */
  datatype Synced = Synced(rows: seq<Prompt>, drift: seq<Drift>, present: map<string, seq<nat>>)

  // ----- version files and registered rows ---------------------------------------------------------

  /** `v(\d+)\.md`, matched in full. */
  function VersionOf(name: string): Option<nat> {
    if |name| > 4 && name[0] == 'v' && name[|name| - 3..] == ".md" && AllDigits(name[1..|name| - 3]) then
      Some(DigitsValue(name[1..|name| - 3]))
    else None
  }

  function With(vs: Versions, version: nat, text: string): Versions {
    Versions(if version in vs.texts then vs.order else vs.order + [version], vs.texts[version := text])
  }

  function FilesOf(entries: seq<Entry>): Versions {
    if entries == [] then NO_VERSIONS
    else
      var before, e := FilesOf(entries[..|entries| - 1]), entries[|entries| - 1];
      if e.isFile && VersionOf(e.name).Some? then With(before, VersionOf(e.name).value, e.text) else before
  }

  /** The registered versions of one slug. */
  function Existing(rows: seq<Prompt>, slug: string): Versions {
    if rows == [] then NO_VERSIONS
    else
      var before, p := Existing(rows[..|rows| - 1], slug), rows[|rows| - 1];
      if p.slug == slug then With(before, p.version, p.text) else before
  }

  predicate NatLe(a: nat, b: nat) { a <= b }

  function Ascending(vs: Versions): seq<nat> {
    Sorted(vs.order, NatLe)
  }

  ghost predicate Consistent(vs: Versions) {
    (forall v :: v in vs.order <==> v in vs.texts) && forall i, j :: 0 <= i < j < |vs.order| ==> vs.order[i] != vs.order[j]
  }

  lemma {:induction false} FilesConsistent(entries: seq<Entry>)
    ensures Consistent(FilesOf(entries))
  {
    if entries != [] {
      FilesConsistent(entries[..|entries| - 1]);
    }
  }

  lemma {:induction false} ExistingConsistent(rows: seq<Prompt>, slug: string)
    ensures Consistent(Existing(rows, slug))
  {
    if rows != [] {
      ExistingConsistent(rows[..|rows| - 1], slug);
    }
  }

  lemma AscendingIsSorted(vs: Versions)
    requires Consistent(vs)
    ensures SortedBy(Ascending(vs), NatLe) && |Ascending(vs)| == |vs.order|
    ensures forall v :: v in Ascending(vs) <==> v in vs.texts
  {
    SortsStably(vs.order, NatLe);
    SameLength(Ascending(vs), vs.order);
  }

  // ----- one line ----------------------------------------------------------------------------------

  /** The rows once the given versions have been looked at. */
  function Registering(rows: seq<Prompt>, slug: string, texts: map<nat, string>, versions: seq<nat>): (r: seq<Prompt>)
    requires forall v :: v in versions ==> v in texts
    ensures rows <= r
  {
    if versions == [] then rows
    else
      var before, v := Registering(rows, slug, texts, versions[..|versions| - 1]), versions[|versions| - 1];
      if v in Existing(before, slug).texts then before
      else before + [RunModel.Prompt(|before|, slug, v, texts[v])]
  }

  function Drifted(rows: seq<Prompt>, slug: string, texts: map<nat, string>, versions: seq<nat>): seq<Drift>
    requires forall v :: v in versions ==> v in texts
  {
    if versions == [] then []
    else
      var before, v := Drifted(rows, slug, texts, versions[..|versions| - 1]), versions[|versions| - 1];
      var existing := Existing(Registering(rows, slug, texts, versions[..|versions| - 1]), slug);
      if v in existing.texts && existing.texts[v] != texts[v] then before + [Drift(slug, v)] else before
  }

  function LineSynced(s: Synced, line: Line): Synced {
    FilesConsistent(line.entries);
    AscendingIsSorted(FilesOf(line.entries));
    var files := FilesOf(line.entries);
    if files.order == [] then s
    else
      var rows := Registering(s.rows, line.slug, files.texts, Ascending(files));
      Synced(rows, s.drift + Drifted(s.rows, line.slug, files.texts, Ascending(files)),
             s.present[line.slug := Ascending(Existing(rows, line.slug))])
  }

  function LinesSynced(rows: seq<Prompt>, lines: seq<Line>): Synced {
    if lines == [] then Synced(rows, [], map[])
    else LineSynced(LinesSynced(rows, lines[..|lines| - 1]), lines[|lines| - 1])
  }

  function TreeSynced(rows: seq<Prompt>, tree: Option<seq<Line>>): Synced {
    LinesSynced(rows, tree.GetOr([]))
  }

  // ----- bindings and whole deployments ------------------------------------------------------------

  /** The version a slug is bound to: the wanted one if it is registered, the newest if none is wanted. */
  function Bound(active: map<string, nat>, slug: string, versions: seq<nat>): Option<nat> {
    if slug in active then (if active[slug] in versions then Some(active[slug]) else None)
    else if versions != [] then Some(versions[|versions| - 1])
    else None
  }

  function BindingsOf(active: map<string, nat>, present: map<string, seq<nat>>): map<string, nat> {
    map slug | slug in present && Bound(active, slug, present[slug]).Some? :: Bound(active, slug, present[slug]).value
  }

  function RowsOf(labs: Labs, spec: LabSpec): seq<Prompt> {
    if (spec.project, spec.slug) in labs then labs[(spec.project, spec.slug)].prompts else []
  }

  function LabSynced(labs: Labs, spec: LabSpec): Labs {
    var s := TreeSynced(RowsOf(labs, spec), spec.tree);
    labs[(spec.project, spec.slug) := Lab(s.rows, BindingsOf(spec.active, s.present))]
  }

  function LabsSynced(labs: Labs, specs: seq<LabSpec>): Labs {
    if specs == [] then labs else LabSynced(LabsSynced(labs, specs[..|specs| - 1]), specs[|specs| - 1])
  }

  /** Some lab of the deployment drifts when its turn comes. */
  predicate Drifts(labs: Labs, specs: seq<LabSpec>) {
    specs != [] &&
    (Drifts(labs, specs[..|specs| - 1]) ||
     TreeSynced(RowsOf(LabsSynced(labs, specs[..|specs| - 1]), specs[|specs| - 1]), specs[|specs| - 1].tree).drift != [])
  }

  /** What a start of the server commits. */
  function Deployed(labs: Labs, specs: seq<LabSpec>, fatal: bool): Labs {
    if fatal && Drifts(labs, specs) then labs else LabsSynced(labs, specs)
  }

  // ----- the loaders as the source writes them -----------------------------------------------------

  /** The committed labs, and what the open session has made of them. */
  class Registry {
    var committed: Labs
    var session: Labs

    constructor ()
      ensures committed == map[] && session == map[]
    {
      committed, session := map[], map[];
    }

    method FilesIn(entries: seq<Entry>) returns (files: Versions)
      ensures files == FilesOf(entries)
    {
      files := NO_VERSIONS;
      for i := 0 to |entries|
        invariant files == FilesOf(entries[..i])
      {
        assert entries[..i + 1][..i] == entries[..i];
        var version := VersionOf(entries[i].name);
        if version.Some? && entries[i].isFile {
          files := With(files, version.value, entries[i].text);
        }
      }
      assert entries[..|entries|] == entries;
    }

    method QueryExisting(rows: seq<Prompt>, slug: string) returns (existing: Versions)
      ensures existing == Existing(rows, slug)
    {
      existing := NO_VERSIONS;
      for i := 0 to |rows|
        invariant existing == Existing(rows[..i], slug)
      {
        assert rows[..i + 1][..i] == rows[..i];
        if rows[i].slug == slug {
          existing := With(existing, rows[i].version, rows[i].text);
        }
      }
      assert rows[..|rows|] == rows;
    }

    method SyncLine(rows: seq<Prompt>, slug: string, files: Versions)
      returns (after: seq<Prompt>, drift: seq<Drift>, present: seq<nat>)
      requires files == NO_VERSIONS || Consistent(files)
      requires forall v :: v in Ascending(files) ==> v in files.texts
      ensures after == Registering(rows, slug, files.texts, Ascending(files))
      ensures drift == Drifted(rows, slug, files.texts, Ascending(files))
      ensures present == Ascending(Existing(after, slug))
    {
      var existing := QueryExisting(rows, slug);
      var versions := Sorted(files.order, NatLe);
      after, drift := rows, [];
      for i := 0 to |versions|
        invariant after == Registering(rows, slug, files.texts, versions[..i])
        invariant drift == Drifted(rows, slug, files.texts, versions[..i])
        invariant existing == Existing(after, slug)
      {
        hide Existing;
        assert versions[..i + 1][..i] == versions[..i];
        var version := versions[i];
        var text := files.texts[version];
        if version !in existing.texts {
          ExistingSnoc(after, RunModel.Prompt(|after|, slug, version, text), slug);
          after := after + [RunModel.Prompt(|after|, slug, version, text)];
          existing := With(existing, version, text);
        } else if existing.texts[version] != text {
          drift := drift + [Drift(slug, version)];
        }
      }
      assert versions[..|versions|] == versions;
      present := Sorted(existing.order, NatLe);
    }

    method SyncLabPrompts(rows: seq<Prompt>, tree: Option<seq<Line>>) returns (s: Synced)
      ensures s == TreeSynced(rows, tree)
    {
      s := Synced(rows, [], map[]);
      if tree.None? {
        return;
      }
      var lines := tree.value;
      for i := 0 to |lines|
        invariant s == LinesSynced(rows, lines[..i])
      {
        assert lines[..i + 1][..i] == lines[..i];
        var files := FilesIn(lines[i].entries);
        if files.order != [] {
          FilesConsistent(lines[i].entries);
          AscendingIsSorted(files);
          var after, drift, present := SyncLine(s.rows, lines[i].slug, files);
          s := Synced(after, s.drift + drift, s.present[lines[i].slug := present]);
        }
      }
      assert lines[..|lines|] == lines;
    }

    method Bind(active: map<string, nat>, present: map<string, seq<nat>>) returns (bindings: map<string, nat>)
      ensures bindings == BindingsOf(active, present)
    {
      bindings := map[];
      var slugs := present.Keys;
      while slugs != {}
        invariant slugs <= present.Keys
        invariant forall s :: s in bindings <==> s in present && s !in slugs && Bound(active, s, present[s]).Some?
        invariant forall s :: s in bindings ==> Bound(active, s, present[s]) == Some(bindings[s])
        decreases slugs
      {
        var slug :| slug in slugs;
        slugs := slugs - {slug};
        var versions := present[slug];
        if slug in active && active[slug] in versions {
          bindings := bindings[slug := active[slug]];
        } else if slug !in active && versions != [] {
          bindings := bindings[slug := versions[|versions| - 1]];
        }
      }
    }

    /** `ok` is false when drift is fatal; the session is then abandoned. */
    method SyncLab(spec: LabSpec, fatal: bool) returns (ok: bool)
      modifies this`session
      ensures ok <==> !(fatal && TreeSynced(RowsOf(old(session), spec), spec.tree).drift != [])
      ensures ok ==> session == LabSynced(old(session), spec)
    {
      var key := (spec.project, spec.slug);
      if key !in session {
        session := session[key := Lab([], map[])];
      }
      var s := SyncLabPrompts(session[key].prompts, spec.tree);
      session := session[key := Lab(s.rows, session[key].bindings)];
      if s.drift != [] && fatal {
        return false;
      }
      var bindings := Bind(spec.active, s.present);
      session := session[key := Lab(s.rows, bindings)];
      ok := true;
    }

    /** A start of the server: one commit at the end, or none. */
    method SyncInstanceLabs(specs: seq<LabSpec>, fatal: bool)
      requires session == committed
      modifies this
      ensures session == committed == Deployed(old(committed), specs, fatal)
    {
      var before := committed;
      for i := 0 to |specs|
        invariant committed == before == old(committed) && session == LabsSynced(before, specs[..i])
        invariant fatal ==> !Drifts(before, specs[..i])
      {
        hide LabSynced, TreeSynced;
        assert specs[..i + 1][..i] == specs[..i];
        var ok := SyncLab(specs[i], fatal);
        if !ok {
          DriftsLater(before, specs, i);
          session := committed;
          return;
        }
      }
      assert specs[..|specs|] == specs;
      if specs != [] {
        committed := session;
      }
    }
  }

  lemma ExistingSnoc(rows: seq<Prompt>, p: Prompt, slug: string)
    ensures Existing(rows + [p], slug) ==
      if p.slug == slug then With(Existing(rows, slug), p.version, p.text) else Existing(rows, slug)
  {
    assert (rows + [p])[..|rows|] == rows;
  }

  lemma {:induction false} DriftsLater(labs: Labs, specs: seq<LabSpec>, i: nat)
    requires i < |specs| && Drifts(labs, specs[..i + 1])
    ensures Drifts(labs, specs)
    decreases |specs|
  {
    if i + 1 < |specs| {
      assert specs[..|specs| - 1][..i + 1] == specs[..i + 1];
      DriftsLater(labs, specs[..|specs| - 1], i);
    } else {
      assert specs[..i + 1] == specs;
    }
  }
}
