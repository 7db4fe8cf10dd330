/** The configuration tree: job objects that are merged in place, with script lines in shared Go slices. */
module Config {
  import opened Options
  import opened Slices
  import Merge

  /** A timeout is a pointer of its own; nothing is ever written through it. */
  class Timeout {
    const seconds: nat

    constructor (seconds: nat)
      ensures this.seconds == seconds
    {
      this.seconds := seconds;
    }
  }

  class SSHConfig {
    var user: string
    var port: nat
    var timeout: Timeout?

    constructor (user: string, port: nat, timeout: Timeout?)
      ensures this.user == user && this.port == port && this.timeout == timeout
    {
      this.user, this.port, this.timeout := user, port, timeout;
    }

    function Value(): Merge.SSH
      reads this
    {
      Merge.SSH(user, port, if timeout == null then None else Some(timeout.seconds))
    }
  }

  class RsyncSection {
    var included: seq<string>
    var excluded: seq<string>
    var arguments: seq<string>
    var overrideInclude: bool
    var overrideExclude: bool
    var overrideArguments: bool

    constructor (value: Merge.Rsync)
      ensures Value() == value
    {
      included, excluded, arguments := value.included, value.excluded, value.arguments;
      overrideInclude, overrideExclude, overrideArguments :=
        value.overrideInclude, value.overrideExclude, value.overrideArguments;
    }

    function Value(): Merge.Rsync
      reads this
    {
      Merge.Rsync(included, excluded, arguments, overrideInclude, overrideExclude, overrideArguments)
    }
  }

  /** The lines of a script: inline ones from the host's yaml, the others from files. */
  datatype Script = Script(inline: Slice, scripts: Slice) {
    ghost predicate Valid() {
      inline.Valid() && scripts.Valid() && inline.arr != scripts.arr
    }

    /** No array in common with the other script. */
    ghost predicate Outside(s: Script) {
      && inline.arr != s.inline.arr && inline.arr != s.scripts.arr
      && scripts.arr != s.inline.arr && scripts.arr != s.scripts.arr
    }

    ghost function Text(): Merge.Script
      requires Valid()
      reads inline.arr, scripts.arr
    {
      Merge.Script(inline.Contents(), scripts.Contents())
    }

    /** Each slice is in the other script's array for the same list or in neither of that script's arrays. */
    ghost predicate Beside(g: Script) {
      inline.arr != g.scripts.arr && scripts.arr != g.inline.arr
    }

    /** What stands behind the two slices in their arrays. */
    ghost function Behind(): Merge.Script
      requires Valid()
      reads inline.arr, scripts.arr
    {
      Merge.Script(inline.Behind(), scripts.Behind())
    }
  }

  /** What stands behind the four global lists. */
  datatype Rooms = Rooms(pre: Merge.Script, post: Merge.Script)

  /** `r` is `own` appended to the script `g` when that held `lines`, with `room` behind them. */
  ghost predicate ScriptMerged(r: Script, g: Script, lines: Merge.Script, room: Merge.Script, own: Merge.Script)
    requires g.Valid()
    reads r.inline.arr, r.scripts.arr, g.inline.arr, g.scripts.arr
  {
    && Appended(r.inline, g.inline, lines.inline, room.inline, own.inline)
    && Appended(r.scripts, g.scripts, lines.scripts, room.scripts, own.scripts)
  }

  method MergeScript(own: Script, g: Script, extra: nat) returns (r: Script)
    requires own.Valid() && g.Valid() && own.Outside(g)
    modifies g.inline.arr, g.scripts.arr
    ensures r.Valid() && r.Beside(g)
    ensures r.inline.arr == g.inline.arr || fresh(r.inline.arr)
    ensures r.scripts.arr == g.scripts.arr || fresh(r.scripts.arr)
    ensures ScriptMerged(r, g, old(g.Text()), old(g.Behind()), old(own.Text()))
  {
    var inline := Append(g.inline, own.inline.arr[..own.inline.len], extra);
    var scripts := Append(g.scripts, own.scripts.arr[..own.scripts.len], extra);
    r := Script(inline, scripts);
  }

  lemma MergedText(r: Script, g: Script, lines: Merge.Script, room: Merge.Script, own: Merge.Script)
    requires r.Valid() && g.Valid() && ScriptMerged(r, g, lines, room, own)
    ensures r.Text() == Merge.MergeScript(own, lines) && g.Text() == lines
  {
  }

  method MergeBoth(pre: Script, post: Script, gpre: Script, gpost: Script, extra: nat) returns (p: Script, q: Script)
    requires pre.Valid() && post.Valid() && gpre.Valid() && gpost.Valid()
    requires pre.Outside(gpre) && pre.Outside(gpost) && post.Outside(gpre) && post.Outside(gpost) && gpre.Outside(gpost)
    modifies gpre.inline.arr, gpre.scripts.arr, gpost.inline.arr, gpost.scripts.arr
    ensures p.Valid() && q.Valid() && p.Outside(q)
    ensures p.Beside(gpre) && q.Beside(gpost) && p.Outside(gpost) && q.Outside(gpre)
    ensures ScriptMerged(p, gpre, old(gpre.Text()), old(gpre.Behind()), old(pre.Text()))
    ensures ScriptMerged(q, gpost, old(gpost.Text()), old(gpost.Behind()), old(post.Text()))
  {
    p := MergeScript(pre, gpre, extra);
    q := MergeScript(post, gpost, extra);
  }

  class JobConfig {
    const host: string
    var ssh: SSHConfig?
    var rsync: RsyncSection?
    var pre: Script
    var post: Script

    constructor (host: string)
      ensures this.host == host && ssh == null && rsync == null
      ensures fresh(pre.inline.arr) && fresh(pre.scripts.arr) && fresh(post.inline.arr) && fresh(post.scripts.arr)
      ensures Valid() && Value() == Merge.Empty(host)
    {
      this.host := host;
      ssh, rsync := null, null;
      var a, b, c, d := new string[0], new string[0], new string[0], new string[0];
      pre, post := Script(Slice(a, 0), Slice(b, 0)), Script(Slice(c, 0), Slice(d, 0));
    }

    /** Each of the four lists of lines has an array of its own. */
    ghost predicate Valid()
      reads `pre, `post
    {
      pre.Valid() && post.Valid() && pre.Outside(post)
    }

    /** No array of lines in common with the other job. */
    ghost predicate Outside(g: JobConfig)
      reads `pre, `post, g`pre, g`post
    {
      pre.Outside(g.pre) && pre.Outside(g.post) && post.Outside(g.pre) && post.Outside(g.post)
    }

    /** Each list is in the other job's array for the same list or in none of that job's arrays. */
    ghost predicate Beside(g: JobConfig)
      reads `pre, `post, g`pre, g`post
    {
      pre.Beside(g.pre) && post.Beside(g.post) && pre.Outside(g.post) && post.Outside(g.pre)
    }

    /** Two jobs that share no section. */
    predicate OwnSections(other: JobConfig)
      reads `ssh, `rsync, other`ssh, other`rsync
    {
      this != other && (ssh == null || ssh != other.ssh) && (rsync == null || rsync != other.rsync)
    }

    function SSHValue(): Option<Merge.SSH>
      reads `ssh, ssh
    {
      if ssh == null then None else Some(ssh.Value())
    }

    function RsyncValue(): Option<Merge.Rsync>
      reads `rsync, rsync
    {
      if rsync == null then None else Some(rsync.Value())
    }

    ghost function Value(): Merge.Job
      requires Valid()
      reads this, ssh, rsync, pre.inline.arr, pre.scripts.arr, post.inline.arr, post.scripts.arr
    {
      Merge.Job(host, SSHValue(), RsyncValue(), pre.Text(), post.Text())
    }

    /** What stands behind the four lists of lines. */
    ghost function Space(): Rooms
      requires Valid()
      reads `pre, `post, pre.inline.arr, pre.scripts.arr, post.inline.arr, post.scripts.arr
    {
      Rooms(pre.Behind(), post.Behind())
    }

    /** In place; a section the job lacks is duplicated, and the job's script lines are appended to the global ones. */
    method MergeGlobals(globals: JobConfig, extra: nat)
      requires Valid() && globals.Valid() && OwnSections(globals) && Outside(globals)
      modifies this, ssh, rsync,
        globals.pre.inline.arr, globals.pre.scripts.arr, globals.post.inline.arr, globals.post.scripts.arr
      ensures Valid() && Beside(globals)
      ensures (ssh == old(ssh) || fresh(ssh)) && (rsync == old(rsync) || fresh(rsync))
      ensures old(ssh) == null && globals.ssh != null ==> ssh != null && ssh.timeout == globals.ssh.timeout
      ensures SSHValue() == Merge.MergeSSH(old(SSHValue()), old(globals.SSHValue()))
      ensures RsyncValue() == Merge.MergeRsync(old(RsyncValue()), old(globals.RsyncValue()))
      ensures ScriptMerged(pre, globals.pre, old(globals.pre.Text()), old(globals.pre.Behind()), old(pre.Text()))
      ensures ScriptMerged(post, globals.post, old(globals.post.Text()), old(globals.post.Behind()), old(post.Text()))
      ensures Value() == Merge.Merged(old(Value()), old(globals.Value())) && globals.Value() == old(globals.Value())
    {
      hide Appended, Script.Text, Script.Behind, Merge.MergeSSH, Merge.MergeRsync, Merge.MergeScript;
      hide SSHValue, RsyncValue;
      ghost var own, lines, room := Value(), globals.Value(), globals.Space();
      MergeSectionsOnly(globals);
      MergeScripts(globals, extra);
      MergedText(pre, globals.pre, lines.pre, room.pre, own.pre);
      MergedText(post, globals.post, lines.post, room.post, own.post);
    }

    method MergeSections(globals: JobConfig)
      requires OwnSections(globals)
      modifies `ssh, `rsync, ssh, rsync
      ensures (ssh == old(ssh) || fresh(ssh)) && (rsync == old(rsync) || fresh(rsync))
      ensures old(ssh) == null && globals.ssh != null ==> ssh != null && ssh.timeout == globals.ssh.timeout
      ensures SSHValue() == Merge.MergeSSH(old(SSHValue()), old(globals.SSHValue()))
      ensures RsyncValue() == Merge.MergeRsync(old(RsyncValue()), old(globals.RsyncValue()))
      ensures globals.SSHValue() == old(globals.SSHValue()) && globals.RsyncValue() == old(globals.RsyncValue())
    {
      MergeSSHSection(globals);
      MergeRsyncSection(globals);
    }

    /** The same, beside the scripts. */
    method MergeSectionsOnly(globals: JobConfig)
      requires OwnSections(globals) && Valid() && globals.Valid()
      modifies `ssh, `rsync, ssh, rsync
      ensures (ssh == old(ssh) || fresh(ssh)) && (rsync == old(rsync) || fresh(rsync))
      ensures old(ssh) == null && globals.ssh != null ==> ssh != null && ssh.timeout == globals.ssh.timeout
      ensures SSHValue() == Merge.MergeSSH(old(SSHValue()), old(globals.SSHValue()))
      ensures RsyncValue() == Merge.MergeRsync(old(RsyncValue()), old(globals.RsyncValue()))
      ensures globals.SSHValue() == old(globals.SSHValue()) && globals.RsyncValue() == old(globals.RsyncValue())
      ensures pre.Text() == old(pre.Text()) && post.Text() == old(post.Text())
      ensures globals.pre.Text() == old(globals.pre.Text()) && globals.post.Text() == old(globals.post.Text())
      ensures globals.pre.Behind() == old(globals.pre.Behind()) && globals.post.Behind() == old(globals.post.Behind())
    {
      MergeSections(globals);
    }

    method MergeScripts(globals: JobConfig, extra: nat)
      requires this != globals && Valid() && globals.Valid() && Outside(globals)
      modifies `pre, `post,
        globals.pre.inline.arr, globals.pre.scripts.arr, globals.post.inline.arr, globals.post.scripts.arr
      ensures Valid() && Beside(globals)
      ensures SSHValue() == old(SSHValue()) && RsyncValue() == old(RsyncValue())
      ensures globals.SSHValue() == old(globals.SSHValue()) && globals.RsyncValue() == old(globals.RsyncValue())
      ensures ScriptMerged(pre, globals.pre, old(globals.pre.Text()), old(globals.pre.Behind()), old(pre.Text()))
      ensures ScriptMerged(post, globals.post, old(globals.post.Text()), old(globals.post.Behind()), old(post.Text()))
    {
      var p, q := MergeBoth(pre, post, globals.pre, globals.post, extra);
      pre, post := p, q;
    }

    method MergeSSHSection(globals: JobConfig)
      requires OwnSections(globals)
      modifies `ssh, ssh
      ensures SSHValue() == Merge.MergeSSH(old(SSHValue()), old(globals.SSHValue()))
      ensures ssh == old(ssh) || fresh(ssh)
      ensures old(ssh) == null && globals.ssh != null ==> ssh != null && ssh.timeout == globals.ssh.timeout
    {
      if globals.ssh != null {
        if ssh == null {
          var dup := new SSHConfig(globals.ssh.user, globals.ssh.port, globals.ssh.timeout);
          ssh := dup;
        } else {
          if ssh.user == "" {
            ssh.user := globals.ssh.user;
          }
          if ssh.port == 0 {
            ssh.port := globals.ssh.port;
          }
          if ssh.timeout == null && globals.ssh.timeout != null {
            var dup := new Timeout(globals.ssh.timeout.seconds);
            ssh.timeout := dup;
          }
        }
      }
    }

    method MergeRsyncSection(globals: JobConfig)
      requires OwnSections(globals)
      modifies `rsync, rsync
      ensures RsyncValue() == Merge.MergeRsync(old(RsyncValue()), old(globals.RsyncValue()))
      ensures rsync == old(rsync) || fresh(rsync)
    {
      if globals.rsync != null {
        if rsync == null {
          var dup := new RsyncSection(globals.rsync.Value());
          rsync := dup;
        } else {
          if !rsync.overrideInclude {
            rsync.included := rsync.included + globals.rsync.included;
          }
          if !rsync.overrideExclude {
            rsync.excluded := rsync.excluded + globals.rsync.excluded;
          }
          if !rsync.overrideArguments {
            rsync.arguments := rsync.arguments + globals.rsync.arguments;
          }
        }
      }
    }
  }

  // ---------------------------------------------------------------------
  // The globals merged into every host job

  /** Decoding gives every job its own sections. */
  ghost predicate AllApart(jobs: seq<JobConfig>, global: JobConfig)
    reads jobs`ssh, jobs`rsync, global`ssh, global`rsync
  {
    && (forall i :: 0 <= i < |jobs| ==> jobs[i].OwnSections(global))
    && (forall i, j :: 0 <= i < |jobs| && 0 <= j < |jobs| && i != j ==> jobs[i].OwnSections(jobs[j]))
  }

  ghost function Sections(jobs: seq<JobConfig>): set<object?>
    reads jobs`ssh, jobs`rsync
  {
    (set i | 0 <= i < |jobs| :: jobs[i].ssh) + (set i | 0 <= i < |jobs| :: jobs[i].rsync)
  }

  /** The scripts of a job as it was decoded, with arrays of its own. */
  ghost predicate ScriptsDecoded(job: JobConfig, global: JobConfig, own: Merge.Job)
    reads job`pre, job`post, global`pre, global`post
    reads job.pre.inline.arr, job.pre.scripts.arr, job.post.inline.arr, job.post.scripts.arr
  {
    job.Valid() && job.Outside(global) && job.pre.Text() == own.pre && job.post.Text() == own.post
  }

  ghost predicate SectionsDecoded(job: JobConfig, own: Merge.Job)
    reads job`ssh, job`rsync, job.ssh, job.rsync
  {
    job.SSHValue() == own.ssh && job.RsyncValue() == own.rsync
  }

  ghost predicate ScriptPlaced(r: Script, g: Script, lines: Merge.Script, own: Merge.Script)
    requires g.Valid()
    reads Own(r.inline, g.inline), Own(r.scripts, g.scripts)
  {
    && r.Beside(g)
    && Placed(r.inline, g.inline, lines.inline, own.inline) && Placed(r.scripts, g.scripts, lines.scripts, own.scripts)
  }

  /** The scripts of a merged job: each list of lines is either in the global array or in one of its own. */
  ghost predicate ScriptsMerged(job: JobConfig, global: JobConfig, lines: Merge.Job, own: Merge.Job)
    requires global.Valid()
    reads job`pre, job`post, global`pre, global`post
    reads Own(job.pre.inline, global.pre.inline), Own(job.pre.scripts, global.pre.scripts)
    reads Own(job.post.inline, global.post.inline), Own(job.post.scripts, global.post.scripts)
  {
    && job.Valid() && job.Beside(global)
    && ScriptPlaced(job.pre, global.pre, lines.pre, own.pre)
    && ScriptPlaced(job.post, global.post, lines.post, own.post)
  }

  ghost predicate SectionsMerged(job: JobConfig, lines: Merge.Job, own: Merge.Job)
    reads job`ssh, job`rsync, job.ssh, job.rsync
  {
    job.SSHValue() == Merge.MergeSSH(own.ssh, lines.ssh) && job.RsyncValue() == Merge.MergeRsync(own.rsync, lines.rsync)
  }

  /** The four lists of script lines that a job holds. */
  datatype ScriptList = PreInline | PreScripts | PostInline | PostScripts

  function LinesOf(job: Merge.Job, l: ScriptList): seq<string> {
    match l
    case PreInline => job.pre.inline
    case PreScripts => job.pre.scripts
    case PostInline => job.post.inline
    case PostScripts => job.post.scripts
  }

  function RoomOf(rooms: Rooms, l: ScriptList): seq<string> {
    match l
    case PreInline => rooms.pre.inline
    case PreScripts => rooms.pre.scripts
    case PostInline => rooms.post.inline
    case PostScripts => rooms.post.scripts
  }

  function OwnLists(jobs: seq<Merge.Job>, l: ScriptList): (own: seq<seq<string>>)
    ensures |own| == |jobs| && forall i :: 0 <= i < |jobs| ==> own[i] == LinesOf(jobs[i], l)
  {
    seq(|jobs|, i requires 0 <= i < |jobs| => LinesOf(jobs[i], l))
  }

  function Filled(rooms: Rooms, jobs: seq<Merge.Job>, n: nat): Rooms
    requires n <= |jobs|
  {
    Rooms(Merge.Script(Overlay(rooms.pre.inline, OwnLists(jobs, PreInline), n),
                       Overlay(rooms.pre.scripts, OwnLists(jobs, PreScripts), n)),
          Merge.Script(Overlay(rooms.post.inline, OwnLists(jobs, PostInline), n),
                       Overlay(rooms.post.scripts, OwnLists(jobs, PostScripts), n)))
  }

  /** The global script lines are as they were, and behind them stands what the first `n` merges left. */
  ghost predicate Shared(global: JobConfig, lines: Merge.Job, rooms: Rooms, before: seq<Merge.Job>, n: nat)
    requires n <= |before| && global.Valid()
    reads global`pre, global`post
    reads global.pre.inline.arr, global.pre.scripts.arr, global.post.inline.arr, global.post.scripts.arr
  {
    && global.pre.Text() == lines.pre && global.post.Text() == lines.post
    && global.Space() == Filled(rooms, before, n)
  }

  /** The sections that a job holds. */
  datatype Pointers = Pointers(ssh: SSHConfig?, rsync: RsyncSection?)

  /** The sections after the merges of the first `n` jobs. */
  ghost predicate SectionsSoFar(jobs: seq<JobConfig>, global: JobConfig, held: seq<Pointers>, lines: Merge.Job,
                                before: seq<Merge.Job>, n: nat)
    requires n <= |jobs| == |before| == |held|
    reads *
  {
    && AllApart(jobs, global) && SectionsDecoded(global, lines)
    && (forall i :: 0 <= i < n ==> SectionsMerged(jobs[i], lines, before[i]))
    && (forall i :: n <= i < |jobs| ==>
          SectionsDecoded(jobs[i], before[i]) && held[i] == Pointers(jobs[i].ssh, jobs[i].rsync))
  }

  /** The scripts after the merges of the first `n` jobs. */
  ghost predicate ScriptsSoFar(jobs: seq<JobConfig>, global: JobConfig, lines: Merge.Job,
                               before: seq<Merge.Job>, n: nat)
    requires n <= |jobs| == |before| && global.Valid()
    reads *
  {
    && (forall i :: 0 <= i < n ==> ScriptsMerged(jobs[i], global, lines, before[i]))
    && (forall i :: n <= i < |jobs| ==> ScriptsDecoded(jobs[i], global, before[i]))
  }

  lemma SharedStep(job: JobConfig, global: JobConfig, lines: Merge.Job, rooms: Rooms, before: seq<Merge.Job>, n: nat)
    requires n < |before| && global.Valid()
    requires ScriptMerged(job.pre, global.pre, lines.pre, Filled(rooms, before, n).pre, before[n].pre)
    requires ScriptMerged(job.post, global.post, lines.post, Filled(rooms, before, n).post, before[n].post)
    ensures Shared(global, lines, rooms, before, n + 1)
  {
  }

  /** MergeGlobals for the `n`-th job, and what it leaves in the job and in the global arrays. */
  method MergeOne(job: JobConfig, global: JobConfig, extra: nat, n: nat,
                  ghost lines: Merge.Job, ghost rooms: Rooms, ghost before: seq<Merge.Job>)
    requires n < |before| && global.Valid() && job.OwnSections(global)
    requires SectionsDecoded(job, before[n]) && ScriptsDecoded(job, global, before[n])
    requires SectionsDecoded(global, lines) && Shared(global, lines, rooms, before, n)
    modifies job, job.ssh, job.rsync,
      global.pre.inline.arr, global.pre.scripts.arr, global.post.inline.arr, global.post.scripts.arr
    ensures SectionsMerged(job, lines, before[n]) && ScriptsMerged(job, global, lines, before[n])
    ensures SectionsDecoded(global, lines) && Shared(global, lines, rooms, before, n + 1)
    ensures (job.ssh == old(job.ssh) || fresh(job.ssh)) && (job.rsync == old(job.rsync) || fresh(job.rsync))
  {
    job.MergeGlobals(global, extra);
    SharedStep(job, global, lines, rooms, before, n);
  }

  /** The same, with what it does to the sections of the other jobs. */
  method MergeAmong(jobs: seq<JobConfig>, job: JobConfig, global: JobConfig, extra: nat, n: nat,
                    ghost held: seq<Pointers>, ghost lines: Merge.Job, ghost rooms: Rooms, ghost before: seq<Merge.Job>)
    requires n < |jobs| == |before| == |held| && job == jobs[n] && global.Valid()
    requires SectionsSoFar(jobs, global, held, lines, before, n) && ScriptsDecoded(job, global, before[n])
    requires Shared(global, lines, rooms, before, n)
    modifies job, job.ssh, job.rsync,
      global.pre.inline.arr, global.pre.scripts.arr, global.post.inline.arr, global.post.scripts.arr
    ensures SectionsSoFar(jobs, global, held, lines, before, n + 1) && ScriptsMerged(job, global, lines, before[n])
    ensures Shared(global, lines, rooms, before, n + 1)
    ensures (job.ssh == old(job.ssh) || fresh(job.ssh)) && (job.rsync == old(job.rsync) || fresh(job.rsync))
  {
    hide Merge.MergeSSH, Merge.MergeRsync, ScriptsMerged, ScriptsDecoded, Shared;
    MergeOne(job, global, extra, n, lines, rooms, before);
    assert AllApart(jobs, global) by {
      hide SectionsMerged, SectionsDecoded;
      forall i | 0 <= i < |jobs| && i != n
        ensures jobs[i].OwnSections(global) && jobs[i].OwnSections(job) && job.OwnSections(jobs[i])
      {
        assert old(jobs[i].OwnSections(global) && jobs[i].OwnSections(jobs[n]) && jobs[n].OwnSections(jobs[i]));
      }
    }
    forall i | 0 <= i < n ensures SectionsMerged(jobs[i], lines, before[i]) {
      assert old(SectionsMerged(jobs[i], lines, before[i]));
    }
    forall i | n < i < |jobs| ensures SectionsDecoded(jobs[i], before[i]) {
      assert old(SectionsDecoded(jobs[i], before[i]));
    }
  }

  /** The body of the loop. */
  method MergeStep(jobs: seq<JobConfig>, job: JobConfig, global: JobConfig, extra: nat, n: nat,
                   ghost held: seq<Pointers>, ghost lines: Merge.Job, ghost rooms: Rooms, ghost before: seq<Merge.Job>)
    requires n < |jobs| == |before| == |held| && job == jobs[n] && global.Valid()
    requires SectionsSoFar(jobs, global, held, lines, before, n) && ScriptsSoFar(jobs, global, lines, before, n)
    requires Shared(global, lines, rooms, before, n) && forall i :: 0 <= i < |jobs| && i != n ==> jobs[i] != job
    modifies job, job.ssh, job.rsync,
      global.pre.inline.arr, global.pre.scripts.arr, global.post.inline.arr, global.post.scripts.arr
    ensures SectionsSoFar(jobs, global, held, lines, before, n + 1) && ScriptsSoFar(jobs, global, lines, before, n + 1)
    ensures Shared(global, lines, rooms, before, n + 1)
    ensures (job.ssh == old(job.ssh) || fresh(job.ssh)) && (job.rsync == old(job.rsync) || fresh(job.rsync))
  {
    hide SectionsSoFar, JobConfig.OwnSections, Shared, Script.Text;
    MergeAmong(jobs, job, global, extra, n, held, lines, rooms, before);
    forall i | 0 <= i < n ensures ScriptsMerged(jobs[i], global, lines, before[i]) {
      assert old(ScriptsMerged(jobs[i], global, lines, before[i]));
    }
    forall i | n < i < |jobs| ensures ScriptsDecoded(jobs[i], global, before[i]) {
      assert old(ScriptsDecoded(jobs[i], global, before[i]));
    }
  }

  method MergeLoop(jobs: seq<JobConfig>, global: JobConfig, extra: nat,
                   ghost held: seq<Pointers>, ghost lines: Merge.Job, ghost rooms: Rooms, ghost before: seq<Merge.Job>)
    requires |jobs| == |before| == |held| && global.Valid()
    requires SectionsSoFar(jobs, global, held, lines, before, 0) && ScriptsSoFar(jobs, global, lines, before, 0)
    requires Shared(global, lines, rooms, before, 0)
    modifies jobs, Sections(jobs),
      global.pre.inline.arr, global.pre.scripts.arr, global.post.inline.arr, global.post.scripts.arr
    ensures global.Valid() && Shared(global, lines, rooms, before, |jobs|)
    ensures SectionsSoFar(jobs, global, held, lines, before, |jobs|)
    ensures ScriptsSoFar(jobs, global, lines, before, |jobs|)
  {
    hide ScriptsMerged, ScriptsDecoded, SectionsMerged, Shared;
    for n := 0 to |jobs|
      invariant global.Valid() && Shared(global, lines, rooms, before, n)
      invariant SectionsSoFar(jobs, global, held, lines, before, n) && ScriptsSoFar(jobs, global, lines, before, n)
    {
      MergeStep(jobs, jobs[n], global, extra, n, held, lines, rooms, before);
    }
  }

  /** What one of the four lists of the `i`-th job holds after the loop. */
  function FinalLines(lines: Merge.Job, rooms: Rooms, before: seq<Merge.Job>, i: nat, l: ScriptList): seq<string>
    requires i < |before|
  {
    Final(LinesOf(lines, l), RoomOf(rooms, l), OwnLists(before, l), i)
  }

  function FinalPre(lines: Merge.Job, rooms: Rooms, before: seq<Merge.Job>, i: nat): Merge.Script
    requires i < |before|
  {
    Merge.Script(FinalLines(lines, rooms, before, i, PreInline), FinalLines(lines, rooms, before, i, PreScripts))
  }

  function FinalPost(lines: Merge.Job, rooms: Rooms, before: seq<Merge.Job>, i: nat): Merge.Script
    requires i < |before|
  {
    Merge.Script(FinalLines(lines, rooms, before, i, PostInline), FinalLines(lines, rooms, before, i, PostScripts))
  }

  lemma MergedLines(job: JobConfig, global: JobConfig, lines: Merge.Job, rooms: Rooms, before: seq<Merge.Job>, i: nat)
    requires i < |before| && global.Valid() && Shared(global, lines, rooms, before, |before|)
    requires ScriptsMerged(job, global, lines, before[i])
    ensures job.pre.Text() == FinalPre(lines, rooms, before, i)
    ensures job.post.Text() == FinalPost(lines, rooms, before, i)
  {
    PlacedFinal(job.pre.inline, global.pre.inline, lines.pre.inline, rooms.pre.inline,
                OwnLists(before, PreInline), i);
    PlacedFinal(job.pre.scripts, global.pre.scripts, lines.pre.scripts, rooms.pre.scripts,
                OwnLists(before, PreScripts), i);
    PlacedFinal(job.post.inline, global.post.inline, lines.post.inline, rooms.post.inline,
                OwnLists(before, PostInline), i);
    PlacedFinal(job.post.scripts, global.post.scripts, lines.post.scripts, rooms.post.scripts,
                OwnLists(before, PostScripts), i);
  }

  /** The `i`-th job after the loop. */
  function FinalJob(lines: Merge.Job, rooms: Rooms, before: seq<Merge.Job>, i: nat): Merge.Job
    requires i < |before|
  {
    Merge.Job(before[i].host, Merge.MergeSSH(before[i].ssh, lines.ssh), Merge.MergeRsync(before[i].rsync, lines.rsync),
              FinalPre(lines, rooms, before, i), FinalPost(lines, rooms, before, i))
  }

  /** For each of the four lists, those of the hosts that fit the room behind the global one are beginnings of
      one another. */
  ghost predicate AllUnmixed(rooms: Rooms, before: seq<Merge.Job>) {
    forall l :: Unmixed(|RoomOf(rooms, l)|, OwnLists(before, l))
  }

  predicate LinesKept(lines: Merge.Job, rooms: Rooms, before: seq<Merge.Job>, i: nat, l: ScriptList)
    requires i < |before|
  {
    FinalLines(lines, rooms, before, i, l) == LinesOf(lines, l) + LinesOf(before[i], l)
  }

  lemma ListKept(lines: Merge.Job, rooms: Rooms, before: seq<Merge.Job>, l: ScriptList)
    ensures (forall i :: 0 <= i < |before| ==> LinesKept(lines, rooms, before, i, l)) <==>
            Unmixed(|RoomOf(rooms, l)|, OwnLists(before, l))
  {
    var own := OwnLists(before, l);
    OwnLinesKept(LinesOf(lines, l), RoomOf(rooms, l), own);
    assert forall i :: 0 <= i < |before| ==>
      (LinesKept(lines, rooms, before, i, l) <==>
       Final(LinesOf(lines, l), RoomOf(rooms, l), own, i) == LinesOf(lines, l) + own[i]);
  }

  lemma JobKept(lines: Merge.Job, rooms: Rooms, before: seq<Merge.Job>, i: nat)
    requires i < |before|
    ensures FinalJob(lines, rooms, before, i) == Merge.Merged(before[i], lines) <==>
            forall l :: LinesKept(lines, rooms, before, i, l)
  {
    hide FinalLines;
    var f, m := FinalJob(lines, rooms, before, i), Merge.Merged(before[i], lines);
    forall l ensures LinesKept(lines, rooms, before, i, l) <==> LinesOf(f, l) == LinesOf(m, l) {
      assert LinesOf(f, l) == FinalLines(lines, rooms, before, i, l);
      assert LinesOf(m, l) == LinesOf(lines, l) + LinesOf(before[i], l);
    }
    SameLines(f, m);
  }

  lemma SameLines(f: Merge.Job, m: Merge.Job)
    requires f.host == m.host && f.ssh == m.ssh && f.rsync == m.rsync
    ensures f == m <==> forall l :: LinesOf(f, l) == LinesOf(m, l)
  {
    if forall l :: LinesOf(f, l) == LinesOf(m, l) {
      assert LinesOf(f, PreInline) == LinesOf(m, PreInline) && LinesOf(f, PreScripts) == LinesOf(m, PreScripts);
      assert LinesOf(f, PostInline) == LinesOf(m, PostInline) && LinesOf(f, PostScripts) == LinesOf(m, PostScripts);
    }
  }

  /** All jobs are their merge with the globals exactly under that condition. */
  lemma MergedExactly(lines: Merge.Job, rooms: Rooms, before: seq<Merge.Job>)
    ensures (forall i :: 0 <= i < |before| ==> FinalJob(lines, rooms, before, i) == Merge.Merged(before[i], lines)) <==>
            AllUnmixed(rooms, before)
  {
    forall i | 0 <= i < |before|
      ensures FinalJob(lines, rooms, before, i) == Merge.Merged(before[i], lines) <==>
              forall l :: LinesKept(lines, rooms, before, i, l)
    {
      JobKept(lines, rooms, before, i);
    }
    hide FinalJob, LinesKept, Unmixed, Merge.Merged;
    if AllUnmixed(rooms, before) {
      forall l, i | 0 <= i < |before| ensures LinesKept(lines, rooms, before, i, l) {
        ListKept(lines, rooms, before, l);
      }
    } else {
      var l :| !Unmixed(|RoomOf(rooms, l)|, OwnLists(before, l));
      ListKept(lines, rooms, before, l);
    }
  }

  method MergeAll(jobs: seq<JobConfig>, global: JobConfig, extra: nat,
                  ghost lines: Merge.Job, ghost rooms: Rooms, ghost before: seq<Merge.Job>)
    requires AllApart(jobs, global) && global.Valid() && |before| == |jobs|
    requires forall i :: 0 <= i < |jobs| ==> jobs[i].Valid() && jobs[i].Outside(global) && jobs[i].Value() == before[i]
    requires lines == global.Value() && rooms == global.Space()
    modifies jobs, Sections(jobs),
      global.pre.inline.arr, global.pre.scripts.arr, global.post.inline.arr, global.post.scripts.arr
    ensures global.Valid() && global.Value() == lines
    ensures forall i :: 0 <= i < |jobs| ==> jobs[i].Valid() && jobs[i].Value() == FinalJob(lines, rooms, before, i)
  {
    ghost var held := seq(|jobs|, i requires 0 <= i < |jobs| reads jobs => Pointers(jobs[i].ssh, jobs[i].rsync));
    MergeLoop(jobs, global, extra, held, lines, rooms, before);
    forall i | 0 <= i < |jobs| ensures jobs[i].Valid() && jobs[i].Value() == FinalJob(lines, rooms, before, i) {
      MergedLines(jobs[i], global, lines, rooms, before, i);
    }
  }

  /** The last part of reload: the globals are merged into every host job, in whatever order the jobs come; `before` is
      what they held. Every section is its merge, but the lines of a script depend on what else was written behind
      the global ones, and all jobs are merged as they should be exactly if the lists that fit there do not clash. */
  method MergeIntoAll(jobs: seq<JobConfig>, global: JobConfig, extra: nat, ghost before: seq<Merge.Job>)
    requires AllApart(jobs, global) && global.Valid() && |before| == |jobs|
    requires forall i :: 0 <= i < |jobs| ==> jobs[i].Valid() && jobs[i].Outside(global) && jobs[i].Value() == before[i]
    modifies jobs, Sections(jobs),
      global.pre.inline.arr, global.pre.scripts.arr, global.post.inline.arr, global.post.scripts.arr
    ensures global.Valid() && global.Value() == old(global.Value())
    ensures forall i :: 0 <= i < |jobs| ==>
              jobs[i].Valid() && jobs[i].Value() == FinalJob(global.Value(), old(global.Space()), before, i)
    ensures (forall i :: 0 <= i < |jobs| ==> jobs[i].Value() == Merge.Merged(before[i], global.Value())) <==>
            AllUnmixed(old(global.Space()), before)
  {
    hide AllUnmixed, FinalJob, Merge.Merged;
    ghost var lines, rooms := global.Value(), global.Space();
    MergeAll(jobs, global, extra, lines, rooms, before);
    MergedExactly(lines, rooms, before);
  }

  /** Two hosts with one line each, and one place behind the global ones: the first host loses its line. */
  lemma HostLosesItsLine(lines: Merge.Job)
    ensures var rooms := Rooms(Merge.Script([""], []), Merge.Script([], []));
            var first := Merge.Empty("a").(pre := Merge.Script(["first"], []));
            var last := Merge.Empty("b").(pre := Merge.Script(["last"], []));
            && !AllUnmixed(rooms, [first, last])
            && FinalJob(lines, rooms, [first, last], 0).pre.inline == lines.pre.inline + ["last"]
  {
    var rooms := Rooms(Merge.Script([""], []), Merge.Script([], []));
    var first := Merge.Empty("a").(pre := Merge.Script(["first"], []));
    var last := Merge.Empty("b").(pre := Merge.Script(["last"], []));
    SpareRoomMixes(lines.pre.inline);
    assert OwnLists([first, last], PreInline) == [["first"], ["last"]];
    assert RoomOf(rooms, PreInline) == [""];
  }

  /** Without spare room behind the global lines, every host gets the global lines followed by its own. */
  lemma NoRoomNoMixing(rooms: Rooms, before: seq<Merge.Job>)
    requires forall l :: RoomOf(rooms, l) == []
    ensures AllUnmixed(rooms, before)
  {
  }

  /** Host: a copy of the job, equal to it and sharing no section with it; the copy's script lines are in the
      same arrays, and so is the timeout of a copied section, but nothing is written there. */
  method Host(hosts: map<string, JobConfig>, name: string, extra: nat) returns (job: JobConfig?)
    requires name in hosts ==> hosts[name].Valid()
    modifies if name in hosts then {hosts[name].pre.inline.arr, hosts[name].pre.scripts.arr,
                                    hosts[name].post.inline.arr, hosts[name].post.scripts.arr} else {}
    ensures (job == null) == (name !in hosts)
    ensures job != null ==>
              && fresh(job) && (job.ssh == null || fresh(job.ssh)) && (job.rsync == null || fresh(job.rsync))
              && job.Valid() && job.Value() == old(hosts[name].Value()) == hosts[name].Value()
              && job.pre == hosts[name].pre && job.post == hosts[name].post
              && (hosts[name].ssh != null ==> job.ssh != null && job.ssh.timeout == hosts[name].ssh.timeout)
  {
    if name in hosts {
      var j := new JobConfig(hosts[name].host);
      Merge.EmptyIsIdentity(hosts[name].Value(), hosts[name].host);
      j.MergeGlobals(hosts[name], extra);
      return j;
    }
    return null;
  }
}
