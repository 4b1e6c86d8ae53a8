/** Which files of a prompt directory are versions, told from their names, and how registered versions
    are numbered. */
module PromptFiles {
  import opened Options
  import opened Strings
  import opened Prompts
  import opened PromptLaws

  /** `v2.md` is version 2, and so is `v02.md`: a name is of version `n` exactly if it is `v`, zeros or
      none, `n` in decimal, and `.md`. */
  lemma VersionTells(name: string, n: nat)
    ensures VersionOf(name) == Some(n) <==> exists zeros :: Zeros(zeros) && name == "v" + zeros + Decimal(n) + ".md"
  {
    hide Decimal, DigitsValue, AllDigits;
    if VersionOf(name) == Some(n) {
      var digits := name[1..|name| - 3];
      assert name == "v" + digits + ".md";
      var zeros := DigitsSplit(digits);
      assert name == "v" + zeros + Decimal(n) + ".md";
    }
    if zeros :| Zeros(zeros) && name == "v" + zeros + Decimal(n) + ".md" {
      ZerosValue(zeros, n);
      DigitsThere(zeros + Decimal(n));
      assert name == "v" + (zeros + Decimal(n)) + ".md";
      assert name[1..|name| - 3] == zeros + Decimal(n) && name[|name| - 3..] == ".md";
    }
  }

  lemma DigitsThere(s: string)
    requires AllDigits(s)
    ensures |s| > 0
  {}

  predicate FileOf(entries: seq<Entry>, i: nat, version: nat) {
    i < |entries| && entries[i].isFile && VersionOf(entries[i].name) == Some(version)
  }

  /** The text of a version is that of the last file the directory lists for it. */
  lemma {:induction false} FilesTell(entries: seq<Entry>, version: nat)
    ensures var files := FilesOf(entries);
      && (version in files.texts <==> exists i: nat :: FileOf(entries, i, version))
      && (version in files.texts ==>
            exists i: nat :: FileOf(entries, i, version) && files.texts[version] == entries[i].text &&
              forall j :: i < j < |entries| ==> !FileOf(entries, j, version))
  {
    hide VersionOf;
    if entries != [] {
      var n := |entries| - 1;
      var init := entries[..n];
      FilesTell(init, version);
      assert forall i: nat :: i < n ==> (FileOf(entries, i, version) <==> FileOf(init, i, version));
      if FileOf(entries, n, version) {
        assert FilesOf(entries).texts[version] == entries[n].text;
      } else if version in FilesOf(init).texts {
        var i: nat :| FileOf(init, i, version) && FilesOf(init).texts[version] == init[i].text &&
          forall j :: i < j < n ==> !FileOf(init, j, version);
        assert FileOf(entries, i, version) && FilesOf(entries).texts[version] == entries[i].text;
        forall j | i < j < |entries| ensures !FileOf(entries, j, version) {
          assert j < n ==> !FileOf(init, j, version);
        }
      }
    }
  }

  /** Registered versions are numbered in the order they were registered. */
  predicate Numbered(rows: seq<Prompt>) {
    forall i :: 0 <= i < |rows| ==> rows[i].id == i
  }

  lemma {:induction false} RegisteringNumbered(rows: seq<Prompt>, slug: string, texts: map<nat, string>, versions: seq<nat>)
    requires (forall v :: v in versions ==> v in texts) && Numbered(rows)
    ensures Numbered(Registering(rows, slug, texts, versions))
  {
    if versions != [] {
      RegisteringNumbered(rows, slug, texts, versions[..|versions| - 1]);
    }
  }

  lemma {:induction false} LinesNumbered(rows: seq<Prompt>, lines: seq<Line>)
    requires Numbered(rows)
    ensures Numbered(LinesSynced(rows, lines).rows)
  {
    if lines != [] {
      var last := lines[|lines| - 1];
      LinesNumbered(rows, lines[..|lines| - 1]);
      FilesConsistent(last.entries);
      AscendingIsSorted(FilesOf(last.entries));
      var files := FilesOf(last.entries);
      RegisteringNumbered(LinesSynced(rows, lines[..|lines| - 1]).rows, last.slug, files.texts, Ascending(files));
    }
  }

  predicate AllNumbered(labs: Labs) {
    forall key :: key in labs ==> Numbered(labs[key].prompts)
  }

  lemma {:induction false} LabsNumbered(labs: Labs, specs: seq<LabSpec>)
    requires AllNumbered(labs)
    ensures AllNumbered(LabsSynced(labs, specs))
  {
    hide LinesSynced, BindingsOf;
    if specs != [] {
      var before, spec := LabsSynced(labs, specs[..|specs| - 1]), specs[|specs| - 1];
      LabsNumbered(labs, specs[..|specs| - 1]);
      LinesNumbered(RowsOf(before, spec), spec.tree.GetOr([]));
    }
  }

  /** Over every history a lab's prompts have the ids 0, 1, 2 and so on: an id names one row for good. */
  lemma {:induction false} IdsTell(history: seq<Deployment>)
    ensures AllNumbered(After(map[], history))
  {
    hide LabsSynced;
    if history != [] {
      var before := After(map[], history[..|history| - 1]);
      IdsTell(history[..|history| - 1]);
      LabsNumbered(before, history[|history| - 1].specs);
    }
  }
}
