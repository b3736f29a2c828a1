/**
  The upgrade applier (upgrade/apply.go): installs a verified release over the library
  directory's three files, keeps the binary it replaces, and rolls back to it. Any file
  operation, check or restart may fail: what each of them answers is an argument. So is whether
  two version texts name one release, which is never said of tags that parse differently.
*/
module Upgrade {
  import opened Versions

  /** A binary: its SHA-256, the version compiled into it and the words it prints when asked for it. */
  datatype Binary = Binary(sum: nat, version: string, words: seq<string>)

  /** One of the words names the version. */
  ghost predicate Prints(b: Binary, version: string) {
    exists word | word in b.words :: Parse(word) == Parse(version)
  }

  /** Whatever release tag the binary prints is that of its own version. */
  ghost predicate Honest(b: Binary) {
    forall word | word in b.words && Parse(word).Some? :: Parse(word) == Parse(b.version)
  }

  /** anix-agent.prev.json: the version and SHA-256 of the kept binary. */
  datatype Record = Record(version: string, sum: nat)

  /** The staged zip: whether it verifies, whether it unpacks, and to what. */
  datatype Zip = Zip(verifies: bool, unpacks: bool, binary: Binary)

  datatype HandOff = Install(target: string, file: Option<Zip>, kernel: bool) | GoBack(target: string)

  /** A restored outcome says whether the binary that ran before was reinstated and started. */
  datatype Outcome = Current | Installed | KernelInstalled | RolledBack | Restored(reinstated: bool) | Refused

  /** The files of the library directory. */
  datatype Files = Files(installed: Binary, kept: Option<Binary>, record: Option<Record>)

  /** Whether two version texts name one release. */
  type SameVersion = (string, string) -> bool

  ghost predicate Sane(same: SameVersion) {
    forall a, b | same(a, b) :: Parse(a) == Parse(b)
  }

  /** One of the words a binary prints names the version. */
  predicate Names(same: SameVersion, words: seq<string>, version: string) {
    exists word | word in words :: same(word, version)
  }

  /** What the steps of one request are answered. */
  datatype Answers = Answers(
    copied: bool, ran: bool, kernelPresent: bool, kernelIn: bool, read: bool, staged: bool,
    keptRenamed: bool, recordWritten: bool, renamed: bool, stayedUp: bool, restored: bool, restarted: bool)

  /** What an install needs of the request and of the binary that runs; the answers come on top. */
  ghost predicate Installable(same: SameVersion, files: Files, h: HandOff) {
    && h.Install? && !same(files.installed.version, h.target) && AtLeast(h.target, files.installed.version)
    && h.file.Some? && h.file.value.verifies && h.file.value.unpacks && Names(same, h.file.value.binary.words, h.target)
  }

  /** What a rollback needs: the kept binary, matching its record, is the one that is asked for. */
  ghost predicate Reversible(same: SameVersion, files: Files, h: HandOff) {
    && h.GoBack? && !same(files.installed.version, h.target) && files.kept.Some? && files.record.Some?
    && same(files.record.value.version, h.target) && files.kept.value.sum == files.record.value.sum
    && Names(same, files.kept.value.words, h.target)
  }

  /** The installed binary is kept with its record and the new one is renamed in. */
  predicate Swaps(a: Answers) { a.keptRenamed && a.recordWritten && a.renamed }

  /** The new binary gets as far as running. */
  ghost predicate GoesIn(same: SameVersion, files: Files, h: HandOff, a: Answers) {
    || (Installable(same, files, h) && a.copied && a.ran && (h.kernel ==> a.kernelIn) && Swaps(a))
    || (Reversible(same, files, h) && a.read && a.staged && a.ran && Swaps(a))
  }

  /** A kernel alone is wanted for the release that runs. */
  ghost predicate WantsKernel(same: SameVersion, files: Files, h: HandOff) {
    same(files.installed.version, h.target) && h.Install? && h.kernel
  }

  /** Exactly when each outcome is answered. */
  ghost predicate Answered(same: SameVersion, files: Files, h: HandOff, a: Answers, outcome: Outcome) {
    && (outcome == Installed <==> h.Install? && GoesIn(same, files, h, a) && a.stayedUp)
    && (outcome == RolledBack <==> h.GoBack? && GoesIn(same, files, h, a) && a.stayedUp)
    && (outcome == Current <==>
      same(files.installed.version, h.target) && (WantsKernel(same, files, h) ==> a.kernelPresent))
    && (outcome == KernelInstalled <==> WantsKernel(same, files, h) && !a.kernelPresent && a.kernelIn && a.stayedUp)
    && (outcome.Restored? <==>
      !a.stayedUp && (GoesIn(same, files, h, a) || (WantsKernel(same, files, h) && !a.kernelPresent && a.kernelIn)))
    && (outcome.Restored? ==> (outcome.reinstated <==> a.restarted && (WantsKernel(same, files, h) || a.restored)))
  }

  /** A binary that the release verified, unpacked to and that printed the target. */
  ghost predicate FromRelease(b: Binary, h: HandOff) {
    h.Install? && h.file.Some? && h.file.value.verifies && h.file.value.unpacks && b == h.file.value.binary
      && Prints(b, h.target)
  }

  /** The kept binary, matching its record and printing the target. */
  ghost predicate FromKept(b: Binary, files: Files, h: HandOff) {
    h.GoBack? && files.kept == Some(b) && files.record.Some? && files.record.value.sum == b.sum
      && Parse(files.record.value.version) == Parse(h.target) && Prints(b, h.target)
  }

  /** The kept copy is the given binary, with a matching record. */
  ghost predicate Keeps(files: Files, b: Binary, version: string) {
    files.kept == Some(b) && files.record == Some(Record(version, b.sum))
  }

  /** What may be left of keep: nothing, the copy alone, or the copy with its record. */
  ghost predicate Keeping(before: Files, after: Files, version: string) {
    && after.installed == before.installed
    && (after == before || after == before.(kept := Some(before.installed)) || Keeps(after, before.installed, version))
  }

  /** a is not older than b. */
  ghost predicate AtLeast(a: string, b: string) {
    Parse(a).Some? && Parse(b).Some? && Order(Parse(a).value, Parse(b).value) >= 0
  }

  /**
    Whatever fails, the installed binary is the one that ran before, or one the release
    verified for a target that is no older, or the kept one that matches its record.
  */
  ghost predicate Safe(before: Files, after: Files, h: HandOff) {
    || after.installed == before.installed
    || (FromRelease(after.installed, h) && AtLeast(h.target, before.installed.version))
    || FromKept(after.installed, before, h)
  }

  /** What each outcome says of the files; the kept copy is the old one or that of the binary that ran. */
  ghost predicate Says(outcome: Outcome, before: Files, after: Files, h: HandOff) {
    Keeping(before, after.(installed := before.installed), before.installed.version) &&
    match outcome
    case Current => after == before
    case KernelInstalled => after == before
    case Refused => after.installed == before.installed
    case Installed => FromRelease(after.installed, h) && Keeps(after, before.installed, before.installed.version)
    case RolledBack => FromKept(after.installed, before, h) && Keeps(after, before.installed, before.installed.version)
    case Restored(reinstated) => reinstated ==> after.installed == before.installed
  }

  /** One applied request. */
  datatype Step = Step(before: Files, after: Files, handOff: HandOff)

  ghost predicate SafeStep(step: Step) { Safe(step.before, step.after, step.handOff) }

  /** Every request so far, each from the files the one before it left. */
  ghost predicate Chain(steps: seq<Step>, files: Files) {
    && (forall i | 0 <= i < |steps| :: SafeStep(steps[i]))
    && (forall i | 0 < i < |steps| :: steps[i].before == steps[i - 1].after)
    && (steps != [] ==> steps[|steps| - 1].after == files)
  }

  lemma ChainGrows(steps: seq<Step>, step: Step)
    ensures Chain(steps, step.before) && SafeStep(step) ==> Chain(steps + [step], step.after)
  {
    var longer := steps + [step];
    assert longer[|steps|] == step;
    assert forall i | 0 <= i < |steps| :: longer[i] == steps[i];
  }

  /** Without a rollback among them, requests of binaries that print their own version never leave an older one installed. */
  lemma {:induction false} OnlyRollbackGoesDown(steps: seq<Step>, files: Files)
    requires Chain(steps, files) && steps != []
    requires forall step | step in steps :: step.handOff.Install? && Honest(step.after.installed)
    ensures files.installed == steps[0].before.installed || AtLeast(files.installed.version, steps[0].before.installed.version)
  {
    var last := steps[|steps| - 1];
    assert last in steps && SafeStep(last);
    InstallGoesUp(last);
    if |steps| > 1 {
      var earlier := steps[..|steps| - 1];
      assert last.before == earlier[|earlier| - 1].after;
      OnlyRollbackGoesDown(earlier, last.before);
      var first, middle := steps[0].before.installed.version, last.before.installed.version;
      if AtLeast(middle, first) && AtLeast(last.after.installed.version, middle) {
        AtLeastIsTransitive(Parse(first).value, Parse(middle).value, Parse(last.after.installed.version).value);
      }
    }
  }

  lemma InstallGoesUp(step: Step)
    requires SafeStep(step) && step.handOff.Install? && Honest(step.after.installed)
    ensures step.after.installed == step.before.installed || AtLeast(step.after.installed.version, step.before.installed.version)
  {
    if step.after.installed != step.before.installed {
      var word :| word in step.after.installed.words && Parse(word) == Parse(step.handOff.target);
    }
  }

  /** A binary that prints the target besides an older version of its own goes in: the target is looked for in any word. */
  lemma AnotherWordGoesDown(before: Files, b: Binary, target: string) returns (step: Step)
    ensures step == Step(before, before.(installed := b), Install(target, Some(Zip(true, true, b)), false))
    ensures Prints(b, target) && AtLeast(target, before.installed.version) && !AtLeast(b.version, before.installed.version) ==>
      SafeStep(step) && !Honest(b)
  {
    step := Step(before, before.(installed := b), Install(target, Some(Zip(true, true, b)), false));
    if Prints(b, target) {
      var word :| word in b.words && Parse(word) == Parse(target);
    }
  }

  lemma AtLeastIsTransitive(a: seq<nat>, b: seq<nat>, c: seq<nat>)
    requires |a| == |b| == |c| && Order(b, a) >= 0 && Order(c, b) >= 0
    ensures Order(c, a) >= 0
  {
    OrderIsTotal(a, b);
    OrderIsTotal(b, c);
    OrderIsTransitive(a, b, c);
    OrderIsTotal(a, c);
  }

  lemma NamesPrints(same: SameVersion, b: Binary, target: string)
    requires Sane(same) && Names(same, b.words, target)
    ensures Prints(b, target)
  {
    var word :| word in b.words && same(word, target);
  }

  class Applier {
    const same: SameVersion
    var files: Files
    ghost var steps: seq<Step>

    constructor (files: Files, same: SameVersion)
      ensures this.files == files && this.same == same && steps == []
    {
      this.files, this.same, steps := files, same, [];
    }

    /** Runs a binary; one of the words it prints must be the target. */
    method CheckVersion(b: Binary, target: string, a: Answers) returns (ok: bool)
      ensures ok <==> a.ran && Names(same, b.words, target)
    {
      if !a.ran {
        return false;
      }
      for i := 0 to |b.words|
        invariant forall k | 0 <= k < i :: !same(b.words[k], target)
      {
        if same(b.words[i], target) {
          return true;
        }
      }
      return false;
    }

    /** Copies the installed binary to the kept one, then writes its record. */
    method Keep(version: string, a: Answers) returns (ok: bool)
      modifies this`files
      ensures Keeping(old(files), files, version)
      ensures ok <==> a.keptRenamed && a.recordWritten
      ensures ok ==> Keeps(files, old(files).installed, version)
    {
      if !a.keptRenamed {
        return false;
      }
      files := files.(kept := Some(files.installed));
      ok := a.recordWritten;
      if ok {
        files := files.(record := Some(Record(version, files.installed.sum)));
      }
    }

    /** Puts the kept binary back and restarts the Agent. */
    method Restore(a: Answers) returns (ok: bool)
      modifies this`files
      ensures files == if a.restored && old(files).kept.Some? then old(files).(installed := old(files).kept.value) else old(files)
      ensures ok <==> a.restored && a.restarted && old(files).kept.Some?
    {
      if !a.restored || files.kept.None? {
        return false;
      }
      files := files.(installed := files.kept.value);
      ok := a.restarted;
    }

    /** Renames the new binary in, restarts, and puts the old one back when it does not stay up. */
    method Replace(binary: Binary, done: Outcome, a: Answers) returns (outcome: Outcome)
      requires files.kept == Some(files.installed)
      modifies this`files
      ensures outcome == if !a.renamed then Refused else if a.stayedUp then done else Restored(a.restored && a.restarted)
      ensures files == if a.renamed && (a.stayedUp || !a.restored) then old(files).(installed := binary) else old(files)
    {
      if !a.renamed {
        return Refused;
      }
      files := files.(installed := binary);
      if a.stayedUp {
        return done;
      }
      var reinstated := Restore(a);
      outcome := Restored(reinstated);
    }

    method InstallRelease(h: HandOff, version: string, a: Answers) returns (outcome: Outcome)
      requires h.Install? && h.file.Some? && version == files.installed.version && Sane(same)
      requires !same(version, h.target) && AtLeast(h.target, version)
      modifies this`files
      ensures Safe(old(files), files, h) && Says(outcome, old(files), files, h) && Answered(same, old(files), h, a, outcome)
    {
      var zip := h.file.value;
      if !a.copied || !zip.verifies || !zip.unpacks {
        return Refused;
      }
      var prints := CheckVersion(zip.binary, h.target, a);
      if !prints || (h.kernel && !a.kernelIn) {
        return Refused;
      }
      NamesPrints(same, zip.binary, h.target);
      var kept := Keep(version, a);
      if !kept {
        return Refused;
      }
      outcome := Replace(zip.binary, Installed, a);
    }

    method RollBack(h: HandOff, version: string, a: Answers) returns (outcome: Outcome)
      requires h.GoBack? && version == files.installed.version && Sane(same) && !same(version, h.target)
      modifies this`files
      ensures Safe(old(files), files, h) && Says(outcome, old(files), files, h) && Answered(same, old(files), h, a, outcome)
    {
      if !a.read || files.record.None? || !same(files.record.value.version, h.target) || files.kept.None? {
        return Refused;
      }
      var prev := files.kept.value;
      if prev.sum != files.record.value.sum || !a.staged {
        return Refused;
      }
      var prints := CheckVersion(prev, h.target, a);
      if !prints {
        return Refused;
      }
      NamesPrints(same, prev, h.target);
      var kept := Keep(version, a);
      if !kept {
        return Refused;
      }
      outcome := Replace(prev, RolledBack, a);
    }

    /** A kernel for the running Agent: no file of the Agent's changes. */
    static method KernelOnly(a: Answers) returns (outcome: Outcome)
      ensures outcome == Current <==> a.kernelPresent
      ensures outcome == KernelInstalled <==> !a.kernelPresent && a.kernelIn && a.stayedUp
      ensures outcome.Restored? <==> !a.kernelPresent && a.kernelIn && !a.stayedUp
      ensures outcome.Restored? ==> outcome.reinstated == a.restarted
      ensures outcome.Current? || outcome.KernelInstalled? || outcome.Refused? || outcome.Restored?
    {
      if a.kernelPresent {
        return Current;
      }
      if !a.kernelIn {
        return Refused;
      }
      outcome := if a.stayedUp then KernelInstalled else Restored(a.restarted);
    }

    /** One request, from any files and whatever fails. */
    method Apply(h: HandOff, a: Answers) returns (outcome: Outcome)
      requires Chain(steps, files) && Sane(same)
      modifies this
      ensures Safe(old(files), files, h) && Says(outcome, old(files), files, h) && Answered(same, old(files), h, a, outcome)
      ensures steps == old(steps) + [Step(old(files), files, h)] && Chain(steps, files)
    {
      ghost var before := files;
      outcome := Decide(h, a);
      ChainGrows(steps, Step(before, files, h));
      steps := steps + [Step(before, files, h)];
    }

    method Decide(h: HandOff, a: Answers) returns (outcome: Outcome)
      requires Sane(same)
      modifies this`files
      ensures Safe(old(files), files, h) && Says(outcome, old(files), files, h) && Answered(same, old(files), h, a, outcome)
    {
      var version := files.installed.version;
      if same(version, h.target) {
        if h.Install? && h.kernel {
          outcome := KernelOnly(a);
          return;
        }
        return Current;
      }
      if h.GoBack? {
        outcome := RollBack(h, version, a);
        return;
      }
      if h.file.None? {
        return Refused;
      }
      var order, ok := CompareVersions(h.target, version);
      if !ok || order < 0 {
        return Refused;
      }
      outcome := InstallRelease(h, version, a);
    }

    /** Two rollbacks that succeed leave the files of the Agent as they were. */
    method RollBackTwice(first: HandOff, a: Answers, second: HandOff, b: Answers) returns (there: Outcome, back: Outcome)
      requires Chain(steps, files) && Sane(same)
      modifies this
      ensures there == RolledBack && back == RolledBack ==>
        files.installed == old(files).installed && files.kept == old(files).kept
    {
      there := Apply(first, a);
      back := Apply(second, b);
    }

    /** A rollback after an installed release swaps the two binaries. */
    method InstallThenRollBack(up: HandOff, a: Answers, down: HandOff, b: Answers) returns (there: Outcome, back: Outcome)
      requires Chain(steps, files) && Sane(same)
      modifies this
      ensures there == Installed && back == RolledBack ==>
        files.installed == old(files).installed && up.Install? && up.file.Some? && files.kept == Some(up.file.value.binary)
    {
      there := Apply(up, a);
      back := Apply(down, b);
    }
  }
}
