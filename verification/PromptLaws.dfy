/** What the prompt registry keeps over every history of file edits and syncs. */
module PromptLaws {
  import opened Options
  import opened Prompts
  import opened Sorting
  import RunModel

  predicate Names(p: Prompt, slug: string, version: nat) {
    p.slug == slug && p.version == version
  }

  predicate Unique(rows: seq<Prompt>) {
    forall i, j :: 0 <= i < j < |rows| ==> !Names(rows[i], rows[j].slug, rows[j].version)
  }

  predicate Has(rows: seq<Prompt>, slug: string, version: nat) {
    exists p :: p in rows && Names(p, slug, version)
  }

  predicate DistinctSlugs(lines: seq<Line>) {
    forall i, j :: 0 <= i < j < |lines| ==> lines[i].slug != lines[j].slug
  }

  lemma HasSnoc(rows: seq<Prompt>, last: Prompt, slug: string, version: nat)
    ensures Has(rows + [last], slug, version) <==> Has(rows, slug, version) || Names(last, slug, version)
  {
    if Has(rows, slug, version) {
      var p :| p in rows && Names(p, slug, version);
      assert p in rows + [last];
    }
    if Names(last, slug, version) {
      assert last in rows + [last];
    }
  }

  lemma {:induction false} ExistingNames(rows: seq<Prompt>, slug: string)
    ensures forall v: nat :: v in Existing(rows, slug).texts <==> Has(rows, slug, v)
  {
    hide Has;
    if rows != [] {
      var n := |rows| - 1;
      assert rows == rows[..n] + [rows[n]];
      ExistingNames(rows[..n], slug);
      forall v: nat ensures Has(rows, slug, v) <==> Has(rows[..n], slug, v) || Names(rows[n], slug, v) {
        HasSnoc(rows[..n], rows[n], slug, v);
      }
    } else {
      HasNothing(slug);
    }
  }

  lemma HasNothing(slug: string)
    ensures forall v: nat :: !Has([], slug, v)
  {}

  lemma {:induction false} ExistingTexts(rows: seq<Prompt>, slug: string)
    requires Unique(rows)
    ensures forall p :: p in rows && p.slug == slug ==>
      p.version in Existing(rows, slug).texts && Existing(rows, slug).texts[p.version] == p.text
  {
    if rows != [] {
      var n := |rows| - 1;
      var init, last := rows[..n], rows[n];
      assert rows == init + [last];
      ExistingTexts(init, slug);
      forall p | p in init ensures !Names(p, last.slug, last.version) {
        var i :| 0 <= i < n && rows[i] == p;
      }
    }
  }

  lemma ExistingHas(rows: seq<Prompt>, slug: string)
    ensures forall v: nat :: v in Existing(rows, slug).texts <==> Has(rows, slug, v)
    ensures Unique(rows) ==> forall p :: p in rows && p.slug == slug ==>
      p.version in Existing(rows, slug).texts && Existing(rows, slug).texts[p.version] == p.text
  {
    ExistingNames(rows, slug);
    if Unique(rows) {
      ExistingTexts(rows, slug);
    }
  }

  // ----- what one line registers -------------------------------------------------------------------

  lemma {:induction false} RegisteringExisting(rows: seq<Prompt>, slug: string, texts: map<nat, string>, versions: seq<nat>)
    requires forall v :: v in versions ==> v in texts
    ensures var before, now := Existing(rows, slug).texts, Existing(Registering(rows, slug, texts, versions), slug).texts;
      && (forall v :: v in now <==> v in before || v in versions)
      && (forall v :: v in before ==> now[v] == before[v])
      && (forall v :: v in versions && v !in before ==> now[v] == texts[v])
  {
    hide Existing;
    if versions != [] {
      var n := |versions| - 1;
      var init, v := versions[..n], versions[n];
      assert versions == init + [v];
      RegisteringExisting(rows, slug, texts, init);
      var r := Registering(rows, slug, texts, init);
      ExistingSnoc(r, RunModel.Prompt(|r|, slug, v, texts[v]), slug);
    }
  }

  lemma {:induction false} RegisteringOther(rows: seq<Prompt>, slug: string, texts: map<nat, string>, versions: seq<nat>, other: string)
    requires (forall v :: v in versions ==> v in texts) && other != slug
    ensures Existing(Registering(rows, slug, texts, versions), other) == Existing(rows, other)
  {
    if versions != [] {
      var init, v := versions[..|versions| - 1], versions[|versions| - 1];
      RegisteringOther(rows, slug, texts, init, other);
      var r := Registering(rows, slug, texts, init);
      ExistingSnoc(r, RunModel.Prompt(|r|, slug, v, texts[v]), other);
    }
  }

  lemma {:induction false} RegisteringUnique(rows: seq<Prompt>, slug: string, texts: map<nat, string>, versions: seq<nat>)
    requires (forall v :: v in versions ==> v in texts) && Unique(rows)
    ensures Unique(Registering(rows, slug, texts, versions))
  {
    if versions != [] {
      var init, v := versions[..|versions| - 1], versions[|versions| - 1];
      RegisteringUnique(rows, slug, texts, init);
      var r := Registering(rows, slug, texts, init);
      ExistingHas(r, slug);
      if v !in Existing(r, slug).texts {
        assert forall p :: p in r ==> !Names(p, slug, v);
      }
    }
  }

  lemma {:induction false} DriftedExact(rows: seq<Prompt>, slug: string, texts: map<nat, string>, versions: seq<nat>)
    requires forall v :: v in versions ==> v in texts
    ensures forall d :: d in Drifted(rows, slug, texts, versions) <==>
      d.slug == slug && d.version in versions && d.version in Existing(rows, slug).texts
      && Existing(rows, slug).texts[d.version] != texts[d.version]
  {
    hide Existing;
    if versions != [] {
      var n := |versions| - 1;
      var init, v := versions[..n], versions[n];
      assert versions == init + [v];
      DriftedExact(rows, slug, texts, init);
      RegisteringExisting(rows, slug, texts, init);
    }
  }

  // ----- what a whole tree registers ---------------------------------------------------------------

  lemma {:induction false} LinesGrow(rows: seq<Prompt>, lines: seq<Line>)
    ensures rows <= LinesSynced(rows, lines).rows
    ensures Unique(rows) ==> Unique(LinesSynced(rows, lines).rows)
  {
    if lines != [] {
      var init, line := lines[..|lines| - 1], lines[|lines| - 1];
      LinesGrow(rows, init);
      FilesConsistent(line.entries);
      AscendingIsSorted(FilesOf(line.entries));
      var files := FilesOf(line.entries);
      if Unique(rows) && files.order != [] {
        RegisteringUnique(LinesSynced(rows, init).rows, line.slug, files.texts, Ascending(files));
      }
    }
  }

  lemma {:induction false} LinesOther(rows: seq<Prompt>, lines: seq<Line>, slug: string)
    requires forall line :: line in lines ==> line.slug != slug
    ensures Existing(LinesSynced(rows, lines).rows, slug) == Existing(rows, slug)
  {
    if lines != [] {
      var init, line := lines[..|lines| - 1], lines[|lines| - 1];
      LinesOther(rows, init, slug);
      assert line in lines;
      FilesConsistent(line.entries);
      AscendingIsSorted(FilesOf(line.entries));
      var files := FilesOf(line.entries);
      if files.order != [] {
        RegisteringOther(LinesSynced(rows, init).rows, line.slug, files.texts, Ascending(files), slug);
      }
    }
  }

  /** The file of a registered version reads differently from the row. */
  predicate Edited(rows: seq<Prompt>, line: Line, version: nat) {
    var files, texts := FilesOf(line.entries).texts, Existing(rows, line.slug).texts;
    version in files && version in texts && texts[version] != files[version]
  }

  lemma LineStep(s: Synced, line: Line)
    ensures var r := LineSynced(s, line);
      && (forall d :: d in r.drift <==>
            d in s.drift || (d.slug == line.slug && Edited(s.rows, line, d.version)))
      && (forall v :: v in FilesOf(line.entries).texts ==> v in Existing(r.rows, line.slug).texts)
      && (forall v :: v in FilesOf(line.entries).texts && v !in Existing(s.rows, line.slug).texts ==>
            Existing(r.rows, line.slug).texts[v] == FilesOf(line.entries).texts[v])
  {
    var files := FilesOf(line.entries);
    FilesConsistent(line.entries);
    AscendingIsSorted(files);
    if files.order != [] {
      DriftedExact(s.rows, line.slug, files.texts, Ascending(files));
      RegisteringExisting(s.rows, line.slug, files.texts, Ascending(files));
    }
  }

  /** Drift is reported for exactly the edited files of registered versions. */
  lemma {:induction false} DriftExact(rows: seq<Prompt>, lines: seq<Line>)
    requires DistinctSlugs(lines)
    ensures forall d :: d in LinesSynced(rows, lines).drift <==>
      exists line :: line in lines && line.slug == d.slug && Edited(rows, line, d.version)
  {
    hide Edited, Existing, FilesOf, LineSynced;
    if lines != [] {
      var n := |lines| - 1;
      var init, line := lines[..n], lines[n];
      assert lines == init + [line];
      DriftExact(rows, init);
      var s := LinesSynced(rows, init);
      LineStep(s, line);
      forall l | l in init ensures l.slug != line.slug {
        var i :| 0 <= i < n && lines[i] == l;
      }
      LinesOther(rows, init, line.slug);
      SameEdited(s.rows, rows, line);
    }
  }

  lemma SameEdited(a: seq<Prompt>, b: seq<Prompt>, line: Line)
    requires Existing(a, line.slug) == Existing(b, line.slug)
    ensures forall v :: Edited(a, line, v) <==> Edited(b, line, v)
  {}

  /** After a sync every version with a file is registered, under the file's text if it was new and
      under its old text otherwise. */
  lemma {:induction false} FilesRegistered(rows: seq<Prompt>, lines: seq<Line>, line: Line, v: nat)
    requires DistinctSlugs(lines) && line in lines && v in FilesOf(line.entries).texts
    ensures var before, now := Existing(rows, line.slug).texts, Existing(LinesSynced(rows, lines).rows, line.slug).texts;
      v in now && now[v] == if v in before then before[v] else FilesOf(line.entries).texts[v]
  {
    hide Existing, FilesOf, Edited;
    var n := |lines| - 1;
    var init, last := lines[..n], lines[n];
    assert lines == init + [last];
    var s := LinesSynced(rows, init);
    forall l | l in init ensures l.slug != last.slug {
      var i :| 0 <= i < n && lines[i] == l;
    }
    FilesConsistent(last.entries);
    AscendingIsSorted(FilesOf(last.entries));
    var files := FilesOf(last.entries);
    if line == last {
      LinesOther(rows, init, line.slug);
      if files.order != [] {
        RegisteringExisting(s.rows, last.slug, files.texts, Ascending(files));
      }
    } else {
      FilesRegistered(rows, init, line, v);
      if files.order != [] {
        RegisteringOther(s.rows, last.slug, files.texts, Ascending(files), line.slug);
      }
    }
  }

  // ----- deployments -------------------------------------------------------------------------------

  datatype Deployment = Deployment(specs: seq<LabSpec>, fatal: bool)

  /** The labs after a history of deployments, each with files edited at will. */
  function After(labs: Labs, history: seq<Deployment>): Labs {
    if history == [] then labs
    else
      var last := history[|history| - 1];
      Deployed(After(labs, history[..|history| - 1]), last.specs, last.fatal)
  }

  function PromptsIn(labs: Labs, key: (string, string)): seq<Prompt> {
    if key in labs then labs[key].prompts else []
  }

  lemma {:induction false} LabsGrow(labs: Labs, specs: seq<LabSpec>, key: (string, string))
    ensures PromptsIn(labs, key) <= PromptsIn(LabsSynced(labs, specs), key)
    ensures Unique(PromptsIn(labs, key)) ==> Unique(PromptsIn(LabsSynced(labs, specs), key))
  {
    hide Unique;
    if specs != [] {
      var init, spec := specs[..|specs| - 1], specs[|specs| - 1];
      LabsGrow(labs, init, key);
      LinesGrow(RowsOf(LabsSynced(labs, init), spec), spec.tree.GetOr([]));
    }
  }

  lemma {:induction false} HistoryGrows(labs: Labs, history: seq<Deployment>, key: (string, string))
    ensures PromptsIn(labs, key) <= PromptsIn(After(labs, history), key)
    ensures Unique(PromptsIn(labs, key)) ==> Unique(PromptsIn(After(labs, history), key))
  {
    hide Unique;
    if history != [] {
      var init, last := history[..|history| - 1], history[|history| - 1];
      HistoryGrows(labs, init, key);
      LabsGrow(After(labs, init), last.specs, key);
    }
  }

  /** A registered version keeps its row, and no other row ever takes its name. */
  lemma FirstTextForever(history: seq<Deployment>, more: seq<Deployment>, key: (string, string), p: Prompt)
    requires p in PromptsIn(After(map[], history), key)
    ensures var later := PromptsIn(After(After(map[], history), more), key);
      p in later && forall q :: q in later && Names(q, p.slug, p.version) ==> q == p
  {
    HistoryGrows(map[], history, key);
    HistoryGrows(After(map[], history), more, key);
    OnlyOne(PromptsIn(After(After(map[], history), more), key), p);
  }

  lemma OnlyOne(rows: seq<Prompt>, p: Prompt)
    requires Unique(rows) && p in rows
    ensures forall q :: q in rows && Names(q, p.slug, p.version) ==> q == p
  {
    forall q | q in rows && Names(q, p.slug, p.version) ensures q == p {
      var i :| 0 <= i < |rows| && rows[i] == p;
      var j :| 0 <= j < |rows| && rows[j] == q;
    }
  }

  predicate HasEdit(rows: seq<Prompt>, spec: LabSpec) {
    exists line :: line in spec.tree.GetOr([]) &&
      exists v :: v in FilesOf(line.entries).texts && Edited(rows, line, v)
  }

  lemma DriftsIffEdit(rows: seq<Prompt>, spec: LabSpec)
    requires DistinctSlugs(spec.tree.GetOr([]))
    ensures TreeSynced(rows, spec.tree).drift != [] <==> HasEdit(rows, spec)
  {
    var lines := spec.tree.GetOr([]);
    var drift := TreeSynced(rows, spec.tree).drift;
    DriftExact(rows, lines);
    if drift != [] {
      var d := drift[0];
      assert d in drift;
      var line :| line in lines && line.slug == d.slug && Edited(rows, line, d.version);
      assert d.version in FilesOf(line.entries).texts;
    }
    if HasEdit(rows, spec) {
      var line :| line in lines && exists v :: v in FilesOf(line.entries).texts && Edited(rows, line, v);
      var v :| v in FilesOf(line.entries).texts && Edited(rows, line, v);
      assert Drift(line.slug, v) in drift;
    }
  }

  /** The `i`-th lab has an edited file when its turn comes. */
  predicate EditedInTurn(labs: Labs, specs: seq<LabSpec>, i: nat)
    requires i < |specs|
  {
    HasEdit(RowsOf(LabsSynced(labs, specs[..i]), specs[i]), specs[i])
  }

  lemma {:induction false} DriftsExact(labs: Labs, specs: seq<LabSpec>)
    requires forall s :: s in specs ==> DistinctSlugs(s.tree.GetOr([]))
    ensures Drifts(labs, specs) <==> exists i: nat :: i < |specs| && EditedInTurn(labs, specs, i)
  {
    hide HasEdit, LabSynced, TreeSynced, RowsOf;
    if specs != [] {
      var n := |specs| - 1;
      var init := specs[..n];
      assert specs == init + [specs[n]];
      DriftsExact(labs, init);
      DriftsIffEdit(RowsOf(LabsSynced(labs, init), specs[n]), specs[n]);
      forall i: nat | i < n ensures EditedInTurn(labs, specs, i) == EditedInTurn(labs, init, i) {
        assert specs[..i] == init[..i];
      }
      if Drifts(labs, init) {
        var i: nat :| i < n && EditedInTurn(labs, init, i);
        assert EditedInTurn(labs, specs, i);
      } else if Drifts(labs, specs) {
        assert EditedInTurn(labs, specs, n);
      }
    }
  }

  /** With fatal drift on, one edited file of one lab keeps every lab of the deployment as it was; with
      no edited file, or with fatal drift off, every lab is synced. */
  lemma FatalDriftCommitsNothing(labs: Labs, specs: seq<LabSpec>, fatal: bool)
    requires forall s :: s in specs ==> DistinctSlugs(s.tree.GetOr([]))
    ensures Deployed(labs, specs, fatal) ==
      if fatal && exists i: nat :: i < |specs| && EditedInTurn(labs, specs, i) then labs else LabsSynced(labs, specs)
  {
    DriftsExact(labs, specs);
  }

  /** In a deployment that names each lab once, a lab's turn finds the rows committed before. */
  lemma {:induction false} OtherLab(labs: Labs, specs: seq<LabSpec>, spec: LabSpec)
    requires forall s :: s in specs ==> (s.project, s.slug) != (spec.project, spec.slug)
    ensures RowsOf(LabsSynced(labs, specs), spec) == RowsOf(labs, spec)
  {
    if specs != [] {
      assert specs[|specs| - 1] in specs;
      OtherLab(labs, specs[..|specs| - 1], spec);
    }
  }

  // ----- bindings ----------------------------------------------------------------------------------

  /** The slug has a directory with a version file in it. */
  predicate HasFiles(lines: seq<Line>, slug: string) {
    exists line :: line in lines && line.slug == slug && FilesOf(line.entries).order != []
  }

  ghost predicate ListsRegistered(rows: seq<Prompt>, slug: string, versions: seq<nat>) {
    && versions != [] && SortedBy(versions, NatLe)
    && forall v :: v in versions <==> v in Existing(rows, slug).texts
  }

  lemma PresentStep(s: Synced, line: Line, slug: string)
    requires slug in s.present ==> ListsRegistered(s.rows, slug, s.present[slug])
    ensures var r := LineSynced(s, line);
      && (slug in r.present <==> slug in s.present || (slug == line.slug && FilesOf(line.entries).order != []))
      && (slug in r.present ==> ListsRegistered(r.rows, slug, r.present[slug]))
  {
    hide Existing, FilesOf;
    FilesConsistent(line.entries);
    var files := FilesOf(line.entries);
    AscendingIsSorted(files);
    if files.order != [] {
      var rows := LineSynced(s, line).rows;
      if slug == line.slug {
        LineStep(s, line);
        ExistingConsistent(rows, slug);
        AscendingIsSorted(Existing(rows, slug));
        assert files.order[0] in files.texts;
        assert files.order[0] in Existing(rows, slug).texts;
      } else {
        RegisteringOther(s.rows, line.slug, files.texts, Ascending(files), slug);
      }
    }
  }

  lemma {:induction false} PresentIsRegistered(rows: seq<Prompt>, lines: seq<Line>, slug: string)
    ensures var s := LinesSynced(rows, lines);
      && (slug in s.present <==> HasFiles(lines, slug))
      && (slug in s.present ==> ListsRegistered(s.rows, slug, s.present[slug]))
  {
    hide ListsRegistered, LineSynced, FilesOf;
    if lines != [] {
      var n := |lines| - 1;
      assert lines == lines[..n] + [lines[n]];
      PresentIsRegistered(rows, lines[..n], slug);
      PresentStep(LinesSynced(rows, lines[..n]), lines[n], slug);
    }
  }

  ghost predicate BindingsOk(labs: Labs, key: (string, string)) {
    key in labs ==>
      forall slug :: slug in labs[key].bindings ==> Has(labs[key].prompts, slug, labs[key].bindings[slug])
  }

  lemma LastIsNewest(versions: seq<nat>)
    requires versions != [] && SortedBy(versions, NatLe)
    ensures forall v :: v in versions ==> v <= versions[|versions| - 1]
  {
    forall v | v in versions ensures v <= versions[|versions| - 1] {
      var i :| 0 <= i < |versions| && versions[i] == v;
      assert i == |versions| - 1 || NatLe(versions[i], versions[|versions| - 1]);
    }
  }

  /** A synced lab binds the slugs that still have version files: to the wanted version if the spec names
      one and it is registered (else not at all), and to the newest registered one otherwise. */
  lemma BindingRule(labs: Labs, spec: LabSpec, slug: string)
    ensures var lab := LabSynced(labs, spec)[(spec.project, spec.slug)];
      && (slug in lab.bindings <==>
            HasFiles(spec.tree.GetOr([]), slug) && (slug in spec.active ==> Has(lab.prompts, slug, spec.active[slug])))
      && (slug in lab.bindings ==> Has(lab.prompts, slug, lab.bindings[slug]))
      && (slug in lab.bindings && slug in spec.active ==> lab.bindings[slug] == spec.active[slug])
      && (slug in lab.bindings && slug !in spec.active ==>
            forall v: nat :: Has(lab.prompts, slug, v) ==> v <= lab.bindings[slug])
  {
    hide Existing, LinesSynced, HasFiles, Has;
    var rows, lines := RowsOf(labs, spec), spec.tree.GetOr([]);
    var s := LinesSynced(rows, lines);
    PresentIsRegistered(rows, lines, slug);
    ExistingHas(s.rows, slug);
    if slug in s.present {
      LastIsNewest(s.present[slug]);
      assert s.present[slug][|s.present[slug]| - 1] in s.present[slug];
    }
  }

  lemma LabBound(labs: Labs, spec: LabSpec, key: (string, string))
    requires BindingsOk(labs, key)
    ensures BindingsOk(LabSynced(labs, spec), key)
  {
    hide Has, TreeSynced, BindingsOf;
    if key == (spec.project, spec.slug) {
      var lab := LabSynced(labs, spec)[key];
      forall slug | slug in lab.bindings ensures Has(lab.prompts, slug, lab.bindings[slug]) {
        BindingRule(labs, spec, slug);
      }
    }
  }

  lemma {:induction false} LabsBound(labs: Labs, specs: seq<LabSpec>, key: (string, string))
    requires BindingsOk(labs, key)
    ensures BindingsOk(LabsSynced(labs, specs), key)
  {
    hide BindingsOk, LabSynced;
    if specs != [] {
      LabsBound(labs, specs[..|specs| - 1], key);
      LabBound(LabsSynced(labs, specs[..|specs| - 1]), specs[|specs| - 1], key);
    }
  }

  /** Whatever the history, every binding names a registered version. */
  lemma {:induction false} BindingsRegistered(history: seq<Deployment>, key: (string, string))
    ensures BindingsOk(After(map[], history), key)
  {
    if history != [] {
      BindingsRegistered(history[..|history| - 1], key);
      LabsBound(After(map[], history[..|history| - 1]), history[|history| - 1].specs, key);
    }
  }

  // ----- from the binding back to the row ----------------------------------------------------------

  lemma {:induction false} Search(rows: seq<Prompt>, from: nat, wanted: Prompt -> bool)
    requires from <= |rows|
    ensures var r := RunModel.FindPrompt(rows, from, wanted);
      && (r.Some? ==> r.value in rows && wanted(r.value))
      && (r.None? ==> forall p :: p in rows[from..] ==> !wanted(p))
    decreases |rows| - from
  {
    if from < |rows| {
      Search(rows, from + 1, wanted);
      assert rows[from..] == [rows[from]] + rows[from + 1..];
    }
  }

  /** The row a step's prompt resolves to: the one of its version if registered, otherwise the first
      registered version with that very text; with neither, none. */
  lemma ResolveFinds(rows: seq<Prompt>, ref: RunModel.PromptRef)
    requires Unique(rows)
    ensures var r := RunModel.ResolvePrompt(rows, ref);
      && (forall p :: p in rows && p.slug == ref.slug && ref.version == Some(p.version) ==> r == Some(p))
      && (r.Some? ==> r.value in rows && r.value.slug == ref.slug)
      && (r.Some? ==> ref.version == Some(r.value.version) || r.value.text == ref.template)
      && (r.None? ==> forall p :: p in rows && p.slug == ref.slug ==> p.text != ref.template)
  {
    assert rows[0..] == rows;
    Search(rows, 0, (p: Prompt) => p.slug == ref.slug && p.text == ref.template);
    if ref.version.Some? {
      Search(rows, 0, (p: Prompt) => p.slug == ref.slug && p.version == ref.version.value);
      forall p | p in rows && p.slug == ref.slug && ref.version == Some(p.version)
        ensures RunModel.ResolvePrompt(rows, ref) == Some(p)
      {
        OnlyOne(rows, p);
      }
    }
  }

  /** A dispatch reads a binding and its row; however many syncs of however edited files come before the
      handler returns that prompt, it resolves to that very row. */
  lemma BoundResolves(history: seq<Deployment>, more: seq<Deployment>, key: (string, string), slug: string)
    requires key in After(map[], history) && slug in After(map[], history)[key].bindings
    ensures var lab, later := After(map[], history)[key], PromptsIn(After(After(map[], history), more), key);
      exists p :: p in lab.prompts && Names(p, slug, lab.bindings[slug]) &&
        RunModel.ResolvePrompt(later, RunModel.PromptRef(slug, p.text, Some(p.version))) == Some(p)
  {
    var lab, later := After(map[], history)[key], PromptsIn(After(After(map[], history), more), key);
    BindingsRegistered(history, key);
    HistoryGrows(map[], history, key);
    HistoryGrows(After(map[], history), more, key);
    assert Has(lab.prompts, slug, lab.bindings[slug]);
    var p :| p in lab.prompts && Names(p, slug, lab.bindings[slug]);
    ResolveFinds(later, RunModel.PromptRef(slug, p.text, Some(p.version)));
  }
}
