/**
 Freezing the v2.3.4 evaluation manifest, the two repairs that may replace it, and the provider
 smoke whose partial files a repair needs. Only a repair overwrites the manifest, and only the
 smoke's last step overwrites its sentinel; every other file is created exclusively. Invocations
 come one after the other, and each may die after any of its file operations.
 */
module ManifestFreezer {
  import opened Wrappers

  type Digest = int

  /** A file's bytes, or what a crash left of them. */
  datatype Content =
    | Torn
    | Text(text: string)
    | Repair(ordinal: nat, priorManifest: Digest, priorSentinel: Digest, superseded: Digest, diagnostic: Digest)
    | Started(manifest: Digest)
    | Passed(realFixes: nat, manifest: Digest)
    | Complete(output: Digest)

  type Hash = Content -> Digest

  datatype File =
    | Manifest
    | Superseded(ordinal: nat)
    | Diagnostic(ordinal: nat)
    | Record(ordinal: nat)
    | Sentinel
    | Partial(resume: nat)
    | Output

  type Store = map<File, Content>

  /**
   One invocation of either command; `survives` counts the file operations it lives through, two
   for each file.

   Of the freezer, `codeGiven`: a repair code was passed; `parses`: the partial file's lines are
   JSON; `inputs`: every frozen path is there.

   Of the smoke, `resume`: the fix it resumes after, or 0; `record`: the repair record it is given;
   `surface`: the bindings, audit and preflight verify; `passes`: all seven roles did what they must.
   */
  datatype Invocation =
    | Freeze(
        ordinal: nat, codeGiven: bool, parses: bool, inputs: bool,
        diagnostic: string, rendered: string, survives: nat)
    | Smoke(resume: nat, record: Option<File>, surface: bool, roles: string, passes: bool, survives: nat)

  /** Creating (or truncating) a file and then filling it, with `left` operations to live. */
  function Write(s: Store, file: File, content: Content, left: int): Store {
    if left <= 0 then s else if left == 1 then s[file := Torn] else s[file := content]
  }

  /** The three files of repair 1, which repair 2 binds as well. */
  predicate FirstRepairFiled(s: Store) {
    Superseded(1) in s && Diagnostic(1) in s && Record(1) in s
  }

  /** What one invocation leaves behind; exclusive creation raises on a file that exists. */
  function Invoke(h: Hash, s: Store, i: Invocation): Store {
    if i.Smoke? then InvokeSmoke(h, s, i) else InvokeFreezer(h, s, i)
  }

  // ----- the freezer -----

  /** The failed smoke that a repair answers: the campaign's sentinel, and the partial file of its last attempt. */
  predicate FailedSmoke(s: Store, ordinal: nat) {
    Sentinel in s && ordinal > 0 && Partial(ordinal - 1) in s
  }

  function InvokeFreezer(h: Hash, s: Store, i: Invocation): Store
    requires i.Freeze?
  {
    if i.ordinal == 0 then
      if Manifest in s || !i.inputs then s else Write(s, Manifest, Text(i.rendered), i.survives)
    else if i.ordinal > 2 || !i.codeGiven || Manifest !in s || !FailedSmoke(s, i.ordinal) || Superseded(i.ordinal) in s then s
    else AfterSuperseded(h, Write(s, Superseded(i.ordinal), s[Manifest], i.survives), i, i.survives - 2)
  }

  function AfterSuperseded(h: Hash, s: Store, i: Invocation, left: int): Store
    requires i.Freeze? && Sentinel in s && Manifest in s
  {
    if !i.parses || Diagnostic(i.ordinal) in s then s
    else AfterDiagnostic(h, Write(s, Diagnostic(i.ordinal), Text(i.diagnostic), left), i, left - 2)
  }

  function AfterDiagnostic(h: Hash, s: Store, i: Invocation, left: int): Store
    requires i.Freeze? && Sentinel in s && Manifest in s
  {
    if Record(i.ordinal) in s then s
    else AfterRecord(Write(s, Record(i.ordinal), NewRecord(h, s, i), left), i, left - 2)
  }

  function NewRecord(h: Hash, s: Store, i: Invocation): Content
    requires i.Freeze? && Sentinel in s && Manifest in s
  {
    var prior := h(s[Manifest]);
    Repair(i.ordinal, prior, h(s[Sentinel]), prior, h(Text(i.diagnostic)))
  }

  function AfterRecord(s: Store, i: Invocation, left: int): Store
    requires i.Freeze?
  {
    if !i.inputs || (i.ordinal == 2 && !FirstRepairFiled(s)) then s
    else Write(s, Manifest, Text(i.rendered), left)
  }

  // ----- the smoke -----

  /** The record belongs to this fix and this campaign, and the manifest is no longer the one it replaces. */
  predicate Resumes(h: Hash, s: Store, i: Invocation)
    requires i.Smoke? && Manifest in s && Sentinel in s
  {
    && 1 <= i.resume <= 2 && i.record.Some? && i.record.value in s
    && var repair := s[i.record.value];
       && repair.Repair? && repair.ordinal == i.resume
       && repair.priorSentinel == h(s[Sentinel]) && repair.priorManifest != h(s[Manifest])
  }

  function InvokeSmoke(h: Hash, s: Store, i: Invocation): Store
    requires i.Smoke?
  {
    if !i.surface || Manifest !in s || s[Manifest].Torn? then s
    else if Sentinel in s then if Resumes(h, s, i) then RunRoles(h, s, i, i.survives) else s
    else if i.resume != 0 || i.record.Some? then s
    else RunRoles(h, Write(s, Sentinel, Started(h(s[Manifest])), i.survives), i, i.survives - 2)
  }

  function RunRoles(h: Hash, s: Store, i: Invocation, left: int): Store
    requires i.Smoke? && Manifest in s
  {
    if Partial(i.resume) in s then s
    else AfterRoles(h, Write(s, Partial(i.resume), Text(i.roles), left), i, left - 2)
  }

  function AfterRoles(h: Hash, s: Store, i: Invocation, left: int): Store
    requires i.Smoke? && Manifest in s
  {
    if !i.passes || Output in s then s
    else
      var passed := Passed(i.resume, h(s[Manifest]));
      Write(Write(s, Output, passed, left), Sentinel, Complete(h(passed)), left - 2)
  }

  function Run(h: Hash, s: Store, invocations: seq<Invocation>): Store {
    if invocations == [] then s
    else Invoke(h, Run(h, s, invocations[..|invocations| - 1]), invocations[|invocations| - 1])
  }

  // ----- one invocation -----

  /** The invocation is a repair that gets as far as truncating the manifest. */
  ghost predicate Overwrites(s: Store, i: Invocation) {
    && i.Freeze? && 1 <= i.ordinal <= 2
    && Manifest in s && i.codeGiven && FailedSmoke(s, i.ordinal) && i.parses && i.inputs
    && Superseded(i.ordinal) !in s && Diagnostic(i.ordinal) !in s && Record(i.ordinal) !in s
    && (i.ordinal == 2 ==> FirstRepairFiled(s))
    && i.survives >= 7
  }

  /**
   What one invocation does to the manifest: when it overwrites it, the bytes it replaces are
   already in its superseded file; otherwise an existing manifest stays as it was.
   */
  lemma RepairSavesFirst(h: Hash, s: Store, i: Invocation)
    ensures Overwrites(s, i) ==>
              var t := Invoke(h, s, i);
              && Superseded(i.ordinal) in t && t[Superseded(i.ordinal)] == s[Manifest]
              && Manifest in t && t[Manifest] == if i.survives == 7 then Torn else Text(i.rendered)
    ensures !Overwrites(s, i) && Manifest in s ==> Manifest in Invoke(h, s, i) && Invoke(h, s, i)[Manifest] == s[Manifest]
  {
    if i.Smoke? && Manifest in s {
      SmokeKeepsFiles(h, s, i, Manifest);
    }
  }

  lemma SmokeKeepsFiles(h: Hash, s: Store, i: Invocation, file: File)
    requires i.Smoke? && file in s && file != Sentinel
    ensures file in Invoke(h, s, i) && Invoke(h, s, i)[file] == s[file]
  {
  }

  /** Only the manifest and the sentinel are ever changed: any other file stays, torn or whole. */
  lemma KeptFilesNeverChange(h: Hash, s: Store, i: Invocation, file: File)
    requires file in s && file != Manifest && file != Sentinel
    ensures file in Invoke(h, s, i) && Invoke(h, s, i)[file] == s[file]
  {
    if i.Smoke? {
      SmokeKeepsFiles(h, s, i, file);
    }
  }

  // ----- every run -----

  lemma {:induction false} RunKeepsFiles(h: Hash, s: Store, invocations: seq<Invocation>, file: File)
    requires file in s && file != Manifest && file != Sentinel
    ensures file in Run(h, s, invocations) && Run(h, s, invocations)[file] == s[file]
  {
    if invocations != [] {
      var n := |invocations| - 1;
      RunKeepsFiles(h, s, invocations[..n], file);
      KeptFilesNeverChange(h, Run(h, s, invocations[..n]), invocations[n], file);
    }
  }

  /** These bytes are the manifest, or some repair has kept them. */
  ghost predicate Recoverable(s: Store, content: Content) {
    (Manifest in s && s[Manifest] == content) || exists k :: Superseded(k) in s && s[Superseded(k)] == content
  }

  /** No manifest is ever lost: whatever it once held, it still holds or a superseded file does. */
  lemma {:induction false} NoManifestIsLost(h: Hash, s: Store, invocations: seq<Invocation>, content: Content)
    requires Recoverable(s, content)
    ensures Recoverable(Run(h, s, invocations), content)
  {
    if invocations != [] {
      var n := |invocations| - 1;
      var before, i := Run(h, s, invocations[..n]), invocations[n];
      NoManifestIsLost(h, s, invocations[..n], content);
      hide Invoke;
      if k :| Superseded(k) in before && before[Superseded(k)] == content {
        KeptFilesNeverChange(h, before, i, Superseded(k));
      } else {
        RepairSavesFirst(h, before, i);
      }
    }
  }

  /** How often the invocations of one ordinal overwrite the manifest. */
  ghost function Overwritings(h: Hash, s: Store, invocations: seq<Invocation>, k: nat): nat {
    if invocations == [] then 0
    else
      var n := |invocations| - 1;
      var before, i := Run(h, s, invocations[..n]), invocations[n];
      Overwritings(h, s, invocations[..n], k) + if Overwrites(before, i) && i.ordinal == k then 1 else 0
  }

  /**
   Each ordinal overwrites at most once, and only with its own three files written before; repair 2
   only when repair 1's three files are there too.
   */
  lemma {:induction false} EachOrdinalOverwritesOnce(h: Hash, s: Store, invocations: seq<Invocation>, k: nat)
    ensures Overwritings(h, s, invocations, k) <= 1
    ensures Overwritings(h, s, invocations, k) == 1 ==>
              var t := Run(h, s, invocations);
              && Superseded(k) in t && Diagnostic(k) in t && Record(k) in t
              && (k == 2 ==> FirstRepairFiled(t))
  {
    if invocations != [] {
      var n := |invocations| - 1;
      var before, i := Run(h, s, invocations[..n]), invocations[n];
      EachOrdinalOverwritesOnce(h, s, invocations[..n], k);
      forall f | f in before && f != Manifest && f != Sentinel ensures f in Invoke(h, before, i) {
        KeptFilesNeverChange(h, before, i, f);
      }
      if Overwrites(before, i) && i.ordinal == k {
        FilesOfAnOverwrite(h, before, i);
      }
    }
  }

  lemma FilesOfAnOverwrite(h: Hash, s: Store, i: Invocation)
    requires Overwrites(s, i)
    ensures var t := Invoke(h, s, i);
      Superseded(i.ordinal) in t && Diagnostic(i.ordinal) in t && Record(i.ordinal) in t
  {
  }

  // ----- the order of the repairs -----

  /**
   What ties the files of a campaign to the overwrites made so far: `one` and `two` say whether
   repair 1 and repair 2 have overwritten the manifest.
   */
  ghost predicate Campaign(h: Hash, s: Store, one: bool, two: bool) {
    && RecordsTell(h, s)
    && (Manifest in s ==> s[Manifest].Torn? || s[Manifest].Text?)
    && (two ==> one)
    && (one ==> Superseded(1) in s) && (two ==> Superseded(2) in s)
    // A repair on record that has not overwritten leaves the manifest it superseded in place.
    && (Record(1) in s && !one ==> Untouched(s, 1))
    && (Record(2) in s && !two ==> Untouched(s, 2))
    // A smoke resumes after a fix only once that repair has overwritten the manifest.
    && (Partial(1) in s ==> one)
    && (Partial(2) in s ==> two)
    && (Superseded(2) in s ==> Partial(1) in s)
    && (Output in s && s[Output].Passed? ==> Partial(s[Output].realFixes) in s && s[Output].realFixes <= 2)
  }

  ghost predicate Untouched(s: Store, k: nat) {
    Manifest in s && Superseded(k) in s && s[Manifest] == s[Superseded(k)]
  }

  /** Only repair records read as such, and each holds the digest of the manifest its repair superseded. */
  ghost predicate RecordsTell(h: Hash, s: Store) {
    forall f :: f in s && s[f].Repair? ==>
      && f == Record(s[f].ordinal)
      && Superseded(s[f].ordinal) in s && s[f].priorManifest == h(s[Superseded(s[f].ordinal)])
  }

  /** A repair of this ordinal may be under way: it answers a failed smoke and has not overwritten. */
  ghost predicate UnderWay(s: Store, k: nat, one: bool, two: bool) {
    && 1 <= k <= 2 && FailedSmoke(s, k) && Manifest in s
    && !(if k == 1 then one else two)
  }

  lemma SupersededKeepsCampaign(h: Hash, s: Store, k: nat, c: Content, one: bool, two: bool)
    requires Campaign(h, s, one, two) && UnderWay(s, k, one, two)
    requires Superseded(k) !in s && (c == Torn || c == s[Manifest])
    ensures Campaign(h, s[Superseded(k) := c], one, two) && UnderWay(s[Superseded(k) := c], k, one, two)
    ensures c == s[Manifest] ==> Untouched(s[Superseded(k) := c], k)
  {
  }

  lemma DiagnosticKeepsCampaign(h: Hash, s: Store, k: nat, c: Content, one: bool, two: bool)
    requires Campaign(h, s, one, two) && UnderWay(s, k, one, two) && Untouched(s, k)
    requires Diagnostic(k) !in s && (c.Torn? || c.Text?)
    ensures var t := s[Diagnostic(k) := c]; Campaign(h, t, one, two) && UnderWay(t, k, one, two) && Untouched(t, k)
  {
  }

  lemma RecordKeepsCampaign(h: Hash, s: Store, k: nat, c: Content, one: bool, two: bool)
    requires Campaign(h, s, one, two) && UnderWay(s, k, one, two) && Untouched(s, k) && Record(k) !in s
    requires c.Torn? || (c.Repair? && c.ordinal == k && c.priorManifest == h(s[Manifest]))
    ensures var t := s[Record(k) := c]; Campaign(h, t, one, two) && UnderWay(t, k, one, two) && Untouched(t, k)
  {
  }

  lemma OverwriteKeepsCampaign(h: Hash, s: Store, k: nat, c: Content, one: bool, two: bool)
    requires Campaign(h, s, one, two) && UnderWay(s, k, one, two) && Untouched(s, k)
    requires c.Torn? || c.Text?
    ensures Campaign(h, s[Manifest := c], one || k == 1, two || k == 2)
  {
  }

  lemma AfterRecordKeepsCampaign(h: Hash, s: Store, i: Invocation, left: int, one: bool, two: bool)
    requires i.Freeze? && Campaign(h, s, one, two) && UnderWay(s, i.ordinal, one, two)
    requires left > 0 ==> Untouched(s, i.ordinal)
    ensures var over := i.inputs && (i.ordinal == 2 ==> FirstRepairFiled(s)) && left > 0;
      Campaign(h, AfterRecord(s, i, left), one || (over && i.ordinal == 1), two || (over && i.ordinal == 2))
  {
    hide Campaign, UnderWay, Untouched;
    if left > 0 {
      OverwriteKeepsCampaign(h, s, i.ordinal, if left == 1 then Torn else Text(i.rendered), one, two);
    }
  }

  lemma AfterDiagnosticKeepsCampaign(h: Hash, s: Store, i: Invocation, left: int, one: bool, two: bool)
    requires i.Freeze? && Campaign(h, s, one, two) && UnderWay(s, i.ordinal, one, two)
    requires left > 0 ==> Untouched(s, i.ordinal)
    ensures var over := Record(i.ordinal) !in s && i.inputs && (i.ordinal == 2 ==> FirstRepairFiled(s[Record(2) := Torn])) && left > 2;
      Campaign(h, AfterDiagnostic(h, s, i, left), one || (over && i.ordinal == 1), two || (over && i.ordinal == 2))
  {
    if Record(i.ordinal) !in s {
      var c := if left == 1 then Torn else NewRecord(h, s, i);
      if left > 0 {
        RecordKeepsCampaign(h, s, i.ordinal, c, one, two);
      }
      hide Campaign, UnderWay, Untouched;
      AfterRecordKeepsCampaign(h, Write(s, Record(i.ordinal), NewRecord(h, s, i), left), i, left - 2, one, two);
    }
  }

  lemma AfterSupersededKeepsCampaign(h: Hash, s: Store, i: Invocation, left: int, one: bool, two: bool)
    requires i.Freeze? && Campaign(h, s, one, two) && UnderWay(s, i.ordinal, one, two)
    requires left > 0 ==> Untouched(s, i.ordinal)
    ensures var over := i.parses && Diagnostic(i.ordinal) !in s && Record(i.ordinal) !in s && i.inputs
                        && (i.ordinal == 2 ==> FirstRepairFiled(s)) && left > 4;
      Campaign(h, AfterSuperseded(h, s, i, left), one || (over && i.ordinal == 1), two || (over && i.ordinal == 2))
  {
    if i.parses && Diagnostic(i.ordinal) !in s {
      var c := if left == 1 then Torn else Text(i.diagnostic);
      if left > 0 {
        DiagnosticKeepsCampaign(h, s, i.ordinal, c, one, two);
      }
      assert UnderWay(s, i.ordinal, one, two);
      hide Campaign, UnderWay, Untouched;
      AfterDiagnosticKeepsCampaign(h, Write(s, Diagnostic(i.ordinal), Text(i.diagnostic), left), i, left - 2, one, two);
    }
  }

  lemma FreezeKeepsCampaign(h: Hash, s: Store, i: Invocation, one: bool, two: bool)
    requires Campaign(h, s, one, two) && i.Freeze?
    ensures Campaign(h, Invoke(h, s, i), one || (Overwrites(s, i) && i.ordinal == 1), two || (Overwrites(s, i) && i.ordinal == 2))
  {
    if i.ordinal == 0 {
      FirstFreezeKeepsCampaign(h, s, i, one, two);
    } else if 1 <= i.ordinal <= 2 && i.codeGiven && Manifest in s && FailedSmoke(s, i.ordinal) && Superseded(i.ordinal) !in s {
      var t := Write(s, Superseded(i.ordinal), s[Manifest], i.survives);
      if i.survives > 0 {
        SupersededKeepsCampaign(h, s, i.ordinal, if i.survives == 1 then Torn else s[Manifest], one, two);
      }
      assert UnderWay(s, i.ordinal, one, two);
      hide Campaign, UnderWay, Untouched;
      AfterSupersededKeepsCampaign(h, t, i, i.survives - 2, one, two);
    }
  }

  lemma FirstFreezeKeepsCampaign(h: Hash, s: Store, i: Invocation, one: bool, two: bool)
    requires Campaign(h, s, one, two) && i.Freeze? && i.ordinal == 0
    ensures Campaign(h, Invoke(h, s, i), one, two)
  {
  }

  lemma SentinelKeepsCampaign(h: Hash, s: Store, c: Content, one: bool, two: bool)
    requires Campaign(h, s, one, two) && !c.Repair?
    ensures Campaign(h, s[Sentinel := c], one, two)
  {
  }

  lemma PartialKeepsCampaign(h: Hash, s: Store, resume: nat, c: Content, one: bool, two: bool)
    requires Campaign(h, s, one, two) && (c.Torn? || c.Text?)
    requires (resume == 1 ==> one) && (resume == 2 ==> two) && resume <= 2
    ensures Campaign(h, s[Partial(resume) := c], one, two)
  {
  }

  lemma OutputKeepsCampaign(h: Hash, s: Store, c: Content, one: bool, two: bool)
    requires Campaign(h, s, one, two)
    requires c.Torn? || (c.Passed? && c.realFixes <= 2 && Partial(c.realFixes) in s)
    ensures Campaign(h, s[Output := c], one, two)
  {
  }

  /** A smoke that resumes finds the manifest of its repair replaced. */
  lemma ResumesAfterOverwrite(h: Hash, s: Store, i: Invocation, one: bool, two: bool)
    requires Campaign(h, s, one, two) && i.Smoke? && Manifest in s && Sentinel in s && Resumes(h, s, i)
    ensures (i.resume == 1 ==> one) && (i.resume == 2 ==> two)
  {
  }

  lemma RolesKeepCampaign(h: Hash, s: Store, i: Invocation, left: int, one: bool, two: bool)
    requires Campaign(h, s, one, two) && i.Smoke? && Manifest in s
    requires (i.resume == 1 ==> one) && (i.resume == 2 ==> two) && i.resume <= 2
    ensures Campaign(h, RunRoles(h, s, i, left), one, two)
  {
    hide Campaign;
    if Partial(i.resume) !in s && left > 0 {
      PartialKeepsCampaign(h, s, i.resume, if left == 1 then Torn else Text(i.roles), one, two);
      var t := Write(s, Partial(i.resume), Text(i.roles), left);
      var passed := Passed(i.resume, h(s[Manifest]));
      if i.passes && Output !in t && left > 2 {
        OutputKeepsCampaign(h, t, if left == 3 then Torn else passed, one, two);
        if left > 4 {
          SentinelKeepsCampaign(h, t[Output := passed], if left == 5 then Torn else Complete(h(passed)), one, two);
        }
      }
    }
  }

  lemma SmokeKeepsCampaign(h: Hash, s: Store, i: Invocation, one: bool, two: bool)
    requires Campaign(h, s, one, two) && i.Smoke?
    ensures Campaign(h, Invoke(h, s, i), one, two)
  {
    if i.surface && Manifest in s && !s[Manifest].Torn? {
      if Sentinel in s {
        if Resumes(h, s, i) {
          ResumesAfterOverwrite(h, s, i, one, two);
          RolesKeepCampaign(h, s, i, i.survives, one, two);
        }
      } else if i.resume == 0 && i.record == None {
        var started := Started(h(s[Manifest]));
        SentinelKeepsCampaign(h, s, if i.survives == 1 then Torn else started, one, two);
        hide Campaign;
        RolesKeepCampaign(h, Write(s, Sentinel, started, i.survives), i, i.survives - 2, one, two);
      }
    }
  }

  /** Every run keeps the files of the campaign in step with the overwrites made. */
  lemma {:induction false} RunKeepsCampaign(h: Hash, invocations: seq<Invocation>)
    ensures Campaign(
              h, Run(h, map[], invocations),
              Overwritings(h, map[], invocations, 1) == 1, Overwritings(h, map[], invocations, 2) == 1)
  {
    if invocations != [] {
      var n := |invocations| - 1;
      var before, i := Run(h, map[], invocations[..n]), invocations[n];
      RunKeepsCampaign(h, invocations[..n]);
      EachOrdinalOverwritesOnce(h, map[], invocations, 1);
      EachOrdinalOverwritesOnce(h, map[], invocations, 2);
      var one, two := Overwritings(h, map[], invocations[..n], 1) == 1, Overwritings(h, map[], invocations[..n], 2) == 1;
      hide Campaign, Invoke;
      if i.Freeze? {
        FreezeKeepsCampaign(h, before, i, one, two);
      } else {
        SmokeKeepsCampaign(h, before, i, one, two);
      }
    }
  }

  /**
   Over every run, repair 2 overwrites only a manifest that repair 1 has overwritten before. The
   freezer itself asks for repair 1's files alone; that the repair was applied follows from the
   digest that the resumed smoke compares.
   */
  lemma RepairsOverwriteInOrder(h: Hash, earlier: seq<Invocation>, i: Invocation)
    requires Overwrites(Run(h, map[], earlier), i)
    ensures i.ordinal == 2 ==> Overwritings(h, map[], earlier, 1) == 1 && Partial(1) in Run(h, map[], earlier)
    ensures Overwritings(h, map[], earlier, i.ordinal) == 0
  {
    RunKeepsCampaign(h, earlier);
    EachOrdinalOverwritesOnce(h, map[], earlier, i.ordinal);
  }

  /** A resumed smoke, and a passing one after its fixes, tell which repairs have overwritten the manifest. */
  lemma FilesTellTheRepairs(h: Hash, invocations: seq<Invocation>)
    ensures var s := Run(h, map[], invocations);
      && (Partial(1) in s ==> Overwritings(h, map[], invocations, 1) == 1)
      && (Partial(2) in s ==> Overwritings(h, map[], invocations, 1) == 1 && Overwritings(h, map[], invocations, 2) == 1)
      && (Output in s && s[Output].Passed? ==>
            forall k :: 1 <= k <= s[Output].realFixes ==> Overwritings(h, map[], invocations, k) == 1)
  {
    RunKeepsCampaign(h, invocations);
    hide Run, Overwritings, RecordsTell, Untouched;
  }

  lemma RunSnoc(h: Hash, s: Store, invocations: seq<Invocation>, i: Invocation)
    ensures Run(h, s, invocations + [i]) == Invoke(h, Run(h, s, invocations), i)
    ensures forall k :: Overwritings(h, s, invocations + [i], k)
              == Overwritings(h, s, invocations, k) + if Overwrites(Run(h, s, invocations), i) && i.ordinal == k then 1 else 0
  {
    assert (invocations + [i])[..|invocations|] == invocations;
  }

  /** One failed smoke and the repair that answers it; the next smoke may then resume. */
  lemma FailAndRepair(h: Hash, earlier: seq<Invocation>, k: nat, v: string) returns (more: seq<Invocation>)
    requires k < 2 && var s := Run(h, map[], earlier); ReadyFor(h, s, k) && s[Manifest] != Text(v) && h(s[Manifest]) != h(Text(v))
    ensures ReadyFor(h, Run(h, map[], more), k + 1) && Run(h, map[], more)[Manifest] == Text(v)
    ensures Overwritings(h, map[], more, k + 1) == Overwritings(h, map[], earlier, k + 1) + 1
    ensures forall j :: j != k + 1 ==> Overwritings(h, map[], more, j) == Overwritings(h, map[], earlier, j)
  {
    var s := Run(h, map[], earlier);
    var smoke := Smoke(k, if k == 0 then None else Some(Record(k)), true, "failed", false, 10);
    var repair := Freeze(k + 1, true, true, true, "diagnosed", v, 10);
    RunSnoc(h, map[], earlier, smoke);
    RunSnoc(h, map[], earlier + [smoke], repair);
    more := earlier + [smoke] + [repair];
    SmokeFails(h, s, k, smoke);
    var t := Invoke(h, s, smoke);
    SmokeLeaves(h, s, t, k);
    RepairApplies(h, t, k + 1, repair);
    RepairLeaves(h, t, Invoke(h, t, repair), k, repair);
    hide *;
    assert !Overwrites(s, smoke) by { NoSmokeOverwrites(s, smoke); }
  }

  lemma NoSmokeOverwrites(s: Store, i: Invocation)
    requires i.Smoke?
    ensures !Overwrites(s, i)
  {
  }

  /** The smoke has failed, and nothing of the repair that answers it exists yet. */
  ghost predicate FailedAt(s: Store, k: nat) {
    && Manifest in s && s[Manifest].Text? && FailedSmoke(s, k + 1) && Output !in s
    && (k >= 1 ==> FirstRepairFiled(s))
    && forall j :: j > k ==> Superseded(j) !in s && Diagnostic(j) !in s && Record(j) !in s && Partial(j) !in s
  }

  lemma SmokeLeaves(h: Hash, s: Store, t: Store, k: nat)
    requires ReadyFor(h, s, k)
    requires t == (if k == 0 then s[Sentinel := Started(h(s[Manifest]))] else s)[Partial(k) := Text("failed")]
    ensures FailedAt(t, k) && t[Manifest] == s[Manifest]
  {
  }

  lemma RepairLeaves(h: Hash, s: Store, t: Store, k: nat, repair: Invocation)
    requires FailedAt(s, k) && repair.Freeze? && h(s[Manifest]) != h(Text(repair.rendered))
    requires var prior := h(s[Manifest]);
      t == s[Superseded(k + 1) := s[Manifest]][Diagnostic(k + 1) := Text(repair.diagnostic)]
            [Record(k + 1) := Repair(k + 1, prior, h(s[Sentinel]), prior, h(Text(repair.diagnostic)))][Manifest := Text(repair.rendered)]
    ensures ReadyFor(h, t, k + 1) && t[Manifest] == Text(repair.rendered)
  {
  }

  /** The smoke after fix `k` can run, and nothing of the repair after it exists. */
  ghost predicate ReadyFor(h: Hash, s: Store, k: nat) {
    && Manifest in s && s[Manifest].Text?
    && (if k == 0 then Sentinel !in s
        else
          && Sentinel in s && Record(k) in s && s[Record(k)].Repair? && s[Record(k)].ordinal == k
          && s[Record(k)].priorSentinel == h(s[Sentinel]) && s[Record(k)].priorManifest != h(s[Manifest]))
    && Partial(k) !in s && Partial(k + 1) !in s && Output !in s
    && (k >= 1 ==> FirstRepairFiled(s))
    && forall j :: j > k ==> Superseded(j) !in s && Diagnostic(j) !in s && Record(j) !in s && Partial(j) !in s
  }

  lemma SmokeFails(h: Hash, s: Store, k: nat, smoke: Invocation)
    requires k <= 2 && ReadyFor(h, s, k) && smoke == Smoke(k, if k == 0 then None else Some(Record(k)), true, "failed", false, 10)
    ensures var started := if k == 0 then s[Sentinel := Started(h(s[Manifest]))] else s;
      Invoke(h, s, smoke) == started[Partial(k) := Text("failed")]
  {
  }

  lemma RepairApplies(h: Hash, s: Store, k: nat, repair: Invocation)
    requires 1 <= k <= 2 && repair.Freeze? && repair.ordinal == k && repair.codeGiven && repair.parses && repair.inputs && repair.survives == 10
    requires Manifest in s && FailedSmoke(s, k) && (k == 2 ==> FirstRepairFiled(s))
    requires Superseded(k) !in s && Diagnostic(k) !in s && Record(k) !in s
    ensures Overwrites(s, repair)
    ensures var prior := h(s[Manifest]);
      Invoke(h, s, repair)
      == s[Superseded(k) := s[Manifest]][Diagnostic(k) := Text(repair.diagnostic)]
          [Record(k) := Repair(k, prior, h(s[Sentinel]), prior, h(Text(repair.diagnostic)))][Manifest := Text(repair.rendered)]
  {
  }

  /** Whenever the digest tells the three manifests apart, some run applies both repairs and passes. */
  lemma BothRepairsCanHappen(h: Hash, v0: string, v1: string, v2: string) returns (invocations: seq<Invocation>)
    requires h(Text(v0)) != h(Text(v1)) && h(Text(v1)) != h(Text(v2))
    ensures Overwritings(h, map[], invocations, 1) == 1 && Overwritings(h, map[], invocations, 2) == 1
    ensures var s := Run(h, map[], invocations); Output in s && s[Output] == Passed(2, h(Text(v2)))
  {
    var freeze := Freeze(0, false, false, true, "", v0, 2);
    RunSnoc(h, map[], [], freeze);
    assert [] + [freeze] == [freeze];
    var one := FailAndRepair(h, [freeze], 0, v1);
    var two := FailAndRepair(h, one, 1, v2);
    var last := Smoke(2, Some(Record(2)), true, "passed", true, 10);
    RunSnoc(h, map[], two, last);
    SmokePasses(h, Run(h, map[], two), last);
    NoSmokeOverwrites(Run(h, map[], two), last);
    hide Invoke, Overwrites;
    invocations := two + [last];
  }

  lemma SmokePasses(h: Hash, s: Store, smoke: Invocation)
    requires ReadyFor(h, s, 2) && smoke == Smoke(2, Some(Record(2)), true, "passed", true, 10)
    ensures var t := Invoke(h, s, smoke); Output in t && t[Output] == Passed(2, h(s[Manifest]))
  {
  }

  // ----- the commands themselves -----

  class ManifestRoot {
    ghost const h: Hash
    const digest: Hash
    var files: Store
    ghost var history: seq<Invocation>

    ghost predicate Valid()
      reads this
    {
      h == digest && files == Run(h, map[], history)
    }

    constructor (digest: Hash)
      ensures Valid() && files == map[] && this.digest == digest
    {
      this.digest, h := digest, digest;
      files, history := map[], [];
    }

    /** `open("x")` or `write_text`, with the operations left to live. */
    method WriteFile(file: File, content: Content, left: int) returns (rest: int)
      modifies this`files
      ensures files == Write(old(files), file, content, left) && rest == left - 2
    {
      rest := left - 2;
      if left >= 1 {
        files := files[file := Torn];
      }
      if left >= 2 {
        files := files[file := content];
      }
    }

    method Execute(i: Invocation)
      requires Valid()
      modifies this
      ensures Valid() && history == old(history) + [i]
      ensures files == Invoke(digest, old(files), i)
    {
      if i.Smoke? {
        RunSmoke(i);
      } else {
        RunFreezer(i);
      }
      RunSnoc(h, map[], history, i);
      history := history + [i];
    }

    method RunFreezer(i: Invocation)
      requires i.Freeze?
      modifies this`files
      ensures files == Invoke(digest, old(files), i)
    {
      if i.ordinal != 0 {
        if i.ordinal > 2 || !i.codeGiven || Manifest !in files {
          return;
        }
        if Sentinel !in files || Partial(i.ordinal - 1) !in files {
          return;
        }
        var oldManifest := files[Manifest];
        var oldDigest := digest(oldManifest);
        if Superseded(i.ordinal) in files {
          return;
        }
        var left := WriteFile(Superseded(i.ordinal), oldManifest, i.survives);
        if !i.parses || Diagnostic(i.ordinal) in files {
          return;
        }
        left := WriteFile(Diagnostic(i.ordinal), Text(i.diagnostic), left);
        if Record(i.ordinal) in files {
          return;
        }
        var record := Repair(i.ordinal, oldDigest, digest(files[Sentinel]), oldDigest, digest(Text(i.diagnostic)));
        left := WriteFile(Record(i.ordinal), record, left);
        if !i.inputs || (i.ordinal == 2 && !FirstRepairFiled(files)) {
          return;
        }
        left := WriteFile(Manifest, Text(i.rendered), left);
      } else if Manifest !in files && i.inputs {
        var left := WriteFile(Manifest, Text(i.rendered), i.survives);
      }
    }

    method RunSmoke(i: Invocation)
      requires i.Smoke?
      modifies this`files
      ensures files == Invoke(digest, old(files), i)
    {
      if !i.surface || Manifest !in files || files[Manifest].Torn? {
        return;
      }
      var left: int := i.survives;
      if Sentinel in files {
        if i.resume !in {1, 2} || i.record == None || i.record.value !in files || !files[i.record.value].Repair? {
          return;
        }
        var repair := files[i.record.value];
        if || repair.ordinal != i.resume || repair.priorSentinel != digest(files[Sentinel])
           || repair.priorManifest == digest(files[Manifest])
        {
          return;
        }
      } else {
        if i.resume != 0 || i.record != None {
          return;
        }
        left := WriteFile(Sentinel, Started(digest(files[Manifest])), left);
      }
      if Partial(i.resume) in files {
        return;
      }
      left := WriteFile(Partial(i.resume), Text(i.roles), left);
      if !i.passes || Output in files {
        return;
      }
      var passed := Passed(i.resume, digest(files[Manifest]));
      left := WriteFile(Output, passed, left);
      left := WriteFile(Sentinel, Complete(digest(passed)), left);
    }
  }
}
