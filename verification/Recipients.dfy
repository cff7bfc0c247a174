/** Who can read the encrypted history: the recipients that jobs were told to encrypt to, and nobody else. */
module Recipients {
  import opened Files
  import opened Ignore
  import opened Trees
  import opened Engine
  import opened Decryption
  import opened Confidential
  import opened Archive
  import opened History
  import opened Mirror

  /** An encryption with a regular file in it is closed to others, as a directory and as any archive of it. */
  lemma SealedFromStrangers(source: Source, recipients: set<string>, files: Files,
                            tar: seq<Header>, accepted: set<Path>, dest: Files, identities: set<string>)
    requires Seals(source, recipients, files) && recipients * identities == {} && ArchiveUpToModes(files, tar)
    ensures var parsed := Parse(ReadIgnore(source.tree, source.ignoreRead));
            && parsed.Some?
            && ((exists p :: KeptFile(source.tree, parsed.value, p)) ==>
                  DecryptInto(files, dest, identities).None? && RestoreInto(tar, accepted, dest, identities).None?)
  {
    var view :| SealsView(source, recipients, files, view);
    SameDisk(source, view);
    assert Parse(ReadIgnore(view, source.ignoreRead)).Some?;
    var patterns := Parse(ReadIgnore(view, source.ignoreRead)).value;
    assert Some(files) == PlaceAll(map[], Outputs(Walk(view, [], patterns), recipients));
    assert forall p :: KeptFile(view, patterns, p) <==> KeptFile(source.tree, patterns, p);
    hide ArchiveUpToModes, Outputs, Walk, KeptFile, RestoreInto, DecryptInto, Exportable, Flatten, ReadIgnore, Parse, PlaceAll, EncryptInto;
    EncryptedClosed(view, patterns, recipients);
    RestoreOf(files, tar, accepted, dest, identities);
    StrangersRefused(view, source.ignoreRead, recipients, files, dest, identities);
  }

  /**
   * Confidentiality: an entry of any reachable history whose source has a regular file to keep is closed to
   * everyone who is not among the recipients it was made for, in the repository and in any archive of it.
   */
  lemma StrangersLockedOut(r: Repo, from: Repo, es: seq<Event>, i: nat,
                           tar: seq<Header>, accepted: set<Path>, dest: Files, identities: set<string>)
    requires Reachable(r, from, es) && i < |r.log| && r.log[i].recipients * identities == {}
    requires ArchiveUpToModes(r.log[i].files, tar)
    ensures r.log[i].source in r.graph
    ensures var source := r.graph[r.log[i].source].source;
            var parsed := Parse(ReadIgnore(source.tree, source.ignoreRead));
            && parsed.Some?
            && ((exists p :: KeptFile(source.tree, parsed.value, p)) ==>
                  DecryptInto(r.log[i].files, dest, identities).None? && RestoreInto(tar, accepted, dest, identities).None?)
  {
    ReachableSafe(r, from, es);
    var e := r.log[i];
    assert EntryOk(r.graph, e);
    hide Safe, SaneCommit, Exec;
    SealedFromStrangers(r.graph[e.source].source, e.recipients, e.files, tar, accepted, dest, identities);
  }

  /** Every file of every entry is the manifest, or ciphertext for exactly the entry's recipients. */
  lemma HistoryHidden(r: Repo, from: Repo, es: seq<Event>, i: nat, p: Path)
    requires Reachable(r, from, es) && i < |r.log| && p in r.log[i].files && r.log[i].files[p].Item?
    ensures r.log[i].files[p].leaf.File? && Hidden(p, r.log[i].files[p].leaf.body, r.log[i].recipients)
  {
    ReachableSafe(r, from, es);
    var e := r.log[i];
    assert EntryOk(r.graph, e);
    hide Safe, SaneCommit, Exec;
    var source := r.graph[e.source].source;
    var view :| SealsView(source, e.recipients, e.files, view);
    hide EncryptInto, Hidden;
    OnlyRecipients(map[], view, source.ignoreRead, e.recipients, p);
  }

  // ---------------------------------------------------------------- whose recipients they are

  /** Every entry, and a job that is running, has recipients that were asked for. */
  ghost predicate AsAsked(r: Repo, asked: set<set<string>>) {
    && (forall i :: 0 <= i < |r.log| ==> r.log[i].recipients in asked)
    && (r.run.Running? ==> r.run.recipients in asked)
  }

  function Asked(es: seq<Event>): (asked: set<set<string>>)
    ensures forall rs :: rs in asked <==> exists k :: 0 <= k < |es| && es[k].Begin? && es[k].recipients == rs
  {
    set k | 0 <= k < |es| && es[k].Begin? :: es[k].recipients
  }

  lemma AskedStep(r: Repo, e: Event, next: Repo, asked: set<set<string>>)
    requires Sane(r.graph) && AsAsked(r, asked) && Apply(r, e) == Some(next)
    requires e.Begin? ==> e.recipients in asked
    ensures AsAsked(next, asked)
  {
    if e.CommitAll? {
      assert next.log == r.log + [NewEntry(r.graph, r.run.todo[0], r.work, r.run.recipients)];
    }
  }

  lemma {:induction false} AskedExec(r: Repo, es: seq<Event>, asked: set<set<string>>)
    requires Sane(r.graph) && AsAsked(r, asked) && Exec(r, es).Some?
    requires forall k :: 0 <= k < |es| && es[k].Begin? ==> es[k].recipients in asked
    ensures AsAsked(Exec(r, es).value, asked)
    decreases |es|
  {
    if es != [] {
      var next := Apply(r, es[0]).value;
      AskedStep(r, es[0], next, asked);
      hide Apply, AsAsked, Sane;
      AskedExec(next, es[1..], asked);
    }
  }

  /** The recipients of an entry are those that some job of the run was told to encrypt to, all of them and nobody else. */
  lemma RecipientsAsked(r: Repo, from: Repo, es: seq<Event>, i: nat)
    requires Reachable(r, from, es) && i < |r.log|
    ensures exists k :: 0 <= k < |es| && es[k].Begin? && es[k].recipients == r.log[i].recipients
  {
    AskedExec(from, es, Asked(es));
  }
}
