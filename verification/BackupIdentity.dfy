/** Encrypted jobs keep the destination and keys of their recovery kit. */
module BackupIdentity {
  import opened Wrappers
  import opened BackupPlane
  import opened BackupRuns

  /** Both plain, or both encrypted to the same account and folder with the same keys. */
  predicate Kin(x: Settings, y: Settings) {
    && x.encrypt == y.encrypt
    && (x.encrypt ==> x.account == y.account && x.folder == y.folder && x.keys == y.keys)
  }

  /** What `driveFields` hands out, whatever is asked: an encrypted job stays encrypted to its
      account and folder with its own keys, or is turned plain before its first run; new keys come
      only from a session offered for that account and folder and confirmed. */
  lemma KeysAreEarned(req: Request, was: Option<Settings>, hasRun: bool, sessions: map<nat, Offer>, known: bool)
    requires Accepted(req) && DriveFields(req, was, hasRun, sessions, known).Some?
    ensures var keys := DriveFields(req, was, hasRun, sessions, known).value;
            var kept := was.Some? && was.value.encrypt;
            && (was.Some? && hasRun ==> req.encrypt == was.value.encrypt)
            && (kept && req.encrypt ==> Kin(was.value, Saved(req, keys)))
            && (kept && !req.encrypt ==> !hasRun)
            && (!kept && keys.Kit? ==>
                  && keys.session == req.session && req.session in sessions && req.confirmed && req.account.Some?
                  && sessions[req.session] == Offer(req.account.value, req.folder))
            && (keys.Kit? ==> req.encrypt)
  {}

  /** What a request for a job, new or as it `was`, must meet. */
  predicate MayHold(req: Request, was: Option<Settings>, hasRun: bool, sessions: map<nat, Offer>, known: bool) {
    var locked := was.Some? && was.value.encrypt;
    && (req.drive ==> req.account.Some? && known)
    && (locked ==> req.drive)
    && (req.drive && was.Some? && hasRun ==> req.encrypt == was.value.encrypt)
    && (req.drive && req.encrypt && locked ==> req.account == was.value.account && req.folder == was.value.folder)
    && (req.drive && req.encrypt && !locked ==>
          req.confirmed && req.account.Some? && req.session in sessions
          && sessions[req.session] == Offer(req.account.value, req.folder))
  }

  /** And nothing else is refused. */
  lemma FieldsGrantedIff(req: Request, was: Option<Settings>, hasRun: bool, sessions: map<nat, Offer>, known: bool)
    ensures DriveFields(req, was, hasRun, sessions, known).Some? <==> MayHold(req, was, hasRun, sessions, known)
  {}

  /** A job that has run keeps its flag, and if encrypted its identity, through any action. */
  lemma JobFixed(s: Plane, a: Action, c: nat)
    requires c in s.db.configs && c < s.db.nextConfig && HasRun(s.db, c)
    ensures c in Apply(s, a).db.configs ==> Kin(s.db.configs[c], Apply(s, a).db.configs[c])
  {}

  predicate KinOk(s: Plane, e: Start) {
    && (e.config in s.db.configs ==> Kin(s.db.configs[e.config], e.settings))
    && (s.mem.resume.Holding? && s.mem.resume.config == e.config ==> Kin(s.mem.resume.settings, e.settings))
  }

  predicate KinStarts(starts: seq<Start>) {
    forall i, j | 0 <= i < j < |starts| && starts[i].config == starts[j].config ::
      Kin(starts[i].settings, starts[j].settings)
  }

  predicate IdentityOk(s: Plane) {
    && (forall i | 0 <= i < |s.starts| :: KinOk(s, s.starts[i]))
    && KinStarts(s.starts)
  }

  lemma KinStep(s: Plane, a: Action, e: Start)
    requires Inv(s) && StartOk(s.db, e) && KinOk(s, e)
    ensures KinOk(Apply(s, a), e)
  {
    if e.config in s.db.configs {
      assert HasRun(s.db, e.config) by { assert s.db.rows[e.run].config == e.config; }
      JobFixed(s, a, e.config);
    }
  }

  lemma NewKin(s: Plane, a: Action)
    requires Inv(s) && IdentityOk(s)
    ensures var t := Apply(s, a);
            || t.starts == s.starts
            || exists e :: t.starts == s.starts + [e] && KinOk(t, e)
                           && forall i | 0 <= i < |s.starts| && s.starts[i].config == e.config :: Kin(s.starts[i].settings, e.settings)
  {
    var t := Apply(s, a);
    if t.starts != s.starts {
      var e := t.starts[|s.starts|];
      assert t.starts == s.starts + [e];
    }
  }

  lemma IdentityStep(s: Plane, a: Action)
    requires Inv(s) && StartsOk(s) && IdentityOk(s)
    ensures IdentityOk(Apply(s, a))
  {
    var t := Apply(s, a);
    NewKin(s, a);
    forall i | 0 <= i < |s.starts| ensures KinOk(t, s.starts[i]) { KinStep(s, a, s.starts[i]); }
  }

  /** Over every sequence of requests, runs, sweeps and crashes, all runs of one job agree on
      the encrypt flag, and if encrypted on account, folder, password and salt. */
  lemma {:induction false} EncryptedJobsKeepIdentity(s: Plane, acts: seq<Action>)
    requires Inv(s) && StartsOk(s) && IdentityOk(s)
    ensures IdentityOk(Run(s, acts))
    decreases acts
  {
    if acts != [] {
      InvStep(s, acts[0]);
      StartsStep(s, acts[0]);
      IdentityStep(s, acts[0]);
      EncryptedJobsKeepIdentity(Apply(s, acts[0]), acts[1..]);
    }
  }

  // ---- one kit, one job ----

  predicate KitsOk(s: Plane) {
    && (forall x | x in s.mem.sessions :: x < s.nextSession)
    && (forall p | p in s.saves :: p.0 < s.nextSession && p.0 !in s.mem.sessions && p.1 < s.db.nextConfig)
    && (forall p, q | p in s.saves && q in s.saves && p.0 == q.0 :: p == q)
    && (forall c | c in s.db.configs && s.db.configs[c].keys.Kit? :: (s.db.configs[c].keys.session, c) in s.saves)
  }

  lemma KitsStep(s: Plane, a: Action)
    requires KitsOk(s) && TablesOk(s.db)
    ensures KitsOk(Apply(s, a))
  {
    if a.Create? { KitsCreate(s, a); }
    else if a.Update? { KitsUpdate(s, a); }
    else if a.Prepare? { KitsPrepare(s, a); }
    else { KitsFewer(s, Apply(s, a)); }
  }

  lemma KitsPrepare(s: Plane, a: Action)
    requires KitsOk(s) && a.Prepare?
    ensures KitsOk(Apply(s, a))
  {}

  /** Nothing else saves a job or opens a session. */
  lemma KitsFewer(s: Plane, t: Plane)
    requires KitsOk(s) && t.saves == s.saves && t.nextSession == s.nextSession
    requires t.mem.sessions.Keys <= s.mem.sessions.Keys && t.db.nextConfig == s.db.nextConfig
    requires forall c | c in t.db.configs :: c in s.db.configs && t.db.configs[c] == s.db.configs[c]
    ensures KitsOk(t)
  {}

  lemma KitsCreate(s: Plane, a: Action)
    requires KitsOk(s) && TablesOk(s.db) && a.Create?
    ensures KitsOk(Apply(s, a))
  {
    var keys := DriveFields(a.req, None, false, s.mem.sessions, a.known);
    if keys.Some? { SaveKit(s, s.db.nextConfig, a.req, keys.value, s.db.nextConfig + 1); }
  }

  lemma KitsUpdate(s: Plane, a: Action)
    requires KitsOk(s) && TablesOk(s.db) && a.Update?
    ensures KitsOk(Apply(s, a))
  {
    if a.config in s.db.configs {
      var keys := DriveFields(a.req, Some(s.db.configs[a.config]), HasRun(s.db, a.config), s.mem.sessions, a.known);
      if keys.Some? { SaveKit(s, a.config, a.req, keys.value, s.db.nextConfig); }
    }
  }

  /** Keys saved are those the job had, or those of an offered session, which is then consumed. */
  lemma SaveKit(s: Plane, config: nat, req: Request, keys: Keys, next: nat)
    requires KitsOk(s) && config < next && s.db.nextConfig <= next
    requires keys.Kit? ==>
               || (config in s.db.configs && s.db.configs[config].keys == keys)
               || (keys.session in s.mem.sessions && keys.session == req.session)
    ensures KitsOk(Save(s, config, req, keys, next))
  {}

  lemma {:induction false} KitsRun(s: Plane, acts: seq<Action>)
    requires KitsOk(s) && Inv(s)
    ensures KitsOk(Run(s, acts))
    decreases acts
  {
    if acts != [] {
      InvStep(s, acts[0]);
      KitsStep(s, acts[0]);
      KitsRun(Apply(s, acts[0]), acts[1..]);
    }
  }

  /** The keys of one recovery session reach at most one job, ever; so no two jobs share keys. */
  lemma KitsReachOneJob(s: Plane, acts: seq<Action>)
    requires KitsOk(s) && Inv(s)
    ensures var t := Run(s, acts);
            && (forall p, q | p in t.saves && q in t.saves && p.0 == q.0 :: p.1 == q.1)
            && (forall c, d | c in t.db.configs && d in t.db.configs && c != d && t.db.configs[c].keys.Kit? ::
                  t.db.configs[c].keys != t.db.configs[d].keys)
  {
    KitsRun(s, acts);
    var t := Run(s, acts);
    forall c, d | c in t.db.configs && d in t.db.configs && c != d && t.db.configs[c].keys.Kit?
      ensures t.db.configs[c].keys != t.db.configs[d].keys
    {
      assert (t.db.configs[c].keys.session, c) in t.saves;
      assert t.db.configs[d].keys.Kit? ==> (t.db.configs[d].keys.session, d) in t.saves;
    }
  }

  // ---- names ----

  predicate NamesOk(db: Tables) {
    forall c, d | c in db.configs && d in db.configs && c != d :: db.configs[c].name != db.configs[d].name
  }

  lemma NamesStep(s: Plane, a: Action)
    requires NamesOk(s.db)
    ensures NamesOk(Apply(s, a).db)
  {}

  /** No two jobs ever have the same name. */
  lemma {:induction false} NamesStayUnique(s: Plane, acts: seq<Action>)
    requires NamesOk(s.db)
    ensures NamesOk(Run(s, acts).db)
    decreases acts
  {
    if acts != [] {
      NamesStep(s, acts[0]);
      NamesStayUnique(Apply(s, acts[0]), acts[1..]);
    }
  }
}
