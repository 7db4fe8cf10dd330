/** Merging configuration layers, as values. */
module Merge {
  import opened Options

  datatype SSH = SSH(user: string, port: nat, timeout: Option<nat>)

  datatype Rsync = Rsync(
    included: seq<string>, excluded: seq<string>, arguments: seq<string>,
    overrideInclude: bool, overrideExclude: bool, overrideArguments: bool)

  datatype Script = Script(inline: seq<string>, scripts: seq<string>)

  datatype Job = Job(host: string, ssh: Option<SSH>, rsync: Option<Rsync>, pre: Script, post: Script)

  function Empty(host: string): Job {
    Job(host, None, None, Script([], []), Script([], []))
  }

  function MergeSSH(j: Option<SSH>, g: Option<SSH>): Option<SSH> {
    if g.None? then j
    else if j.None? then g
    else Some(SSH(if j.value.user == "" then g.value.user else j.value.user,
                  if j.value.port == 0 then g.value.port else j.value.port,
                  if j.value.timeout.None? then g.value.timeout else j.value.timeout))
  }

  function MergeList(own: seq<string>, override_: bool, global: seq<string>): seq<string> {
    if override_ then own else own + global
  }

  function MergeRsync(j: Option<Rsync>, g: Option<Rsync>): Option<Rsync> {
    if g.None? then j
    else if j.None? then g
    else Some(j.value.(included := MergeList(j.value.included, j.value.overrideInclude, g.value.included),
                       excluded := MergeList(j.value.excluded, j.value.overrideExclude, g.value.excluded),
                       arguments := MergeList(j.value.arguments, j.value.overrideArguments, g.value.arguments)))
  }

  function MergeScript(j: Script, g: Script): Script {
    Script(g.inline + j.inline, g.scripts + j.scripts)
  }

  /** `j` with the globals merged in. */
  function Merged(j: Job, g: Job): Job {
    Job(j.host, MergeSSH(j.ssh, g.ssh), MergeRsync(j.rsync, g.rsync),
        MergeScript(j.pre, g.pre), MergeScript(j.post, g.post))
  }

  /** The empty job changes nothing on either side; in particular merging a job into an empty one copies it. */
  lemma EmptyIsIdentity(j: Job, host: string)
    ensures Merged(j, Empty(host)) == j
    ensures Merged(Empty(host), j) == j.(host := host)
  {
    assert MergeScript(j.pre, Script([], [])) == j.pre && MergeScript(Script([], []), j.pre) == j.pre;
    assert MergeScript(j.post, Script([], [])) == j.post && MergeScript(Script([], []), j.post) == j.post;
  }

  predicate OwnSSHKept(own: SSH, merged: SSH) {
    && (own.user != "" ==> merged.user == own.user)
    && (own.port != 0 ==> merged.port == own.port)
    && (own.timeout.Some? ==> merged.timeout == own.timeout)
  }

  predicate OwnRsyncKept(own: Rsync, merged: Rsync) {
    && own.included <= merged.included && (own.overrideInclude ==> merged.included == own.included)
    && own.excluded <= merged.excluded && (own.overrideExclude ==> merged.excluded == own.excluded)
    && own.arguments <= merged.arguments && (own.overrideArguments ==> merged.arguments == own.arguments)
  }

  /** The job's own settings win: own rsync entries come first, and alone where the list is overridden; global script
      lines come first and always. */
  lemma OwnSettingsWin(j: Job, g: Job)
    ensures var m := Merged(j, g);
            && m.host == j.host
            && (j.ssh.Some? ==> m.ssh.Some? && OwnSSHKept(j.ssh.value, m.ssh.value))
            && (j.rsync.Some? ==> m.rsync.Some? && OwnRsyncKept(j.rsync.value, m.rsync.value))
            && g.pre.inline <= m.pre.inline && m.pre.inline[|g.pre.inline|..] == j.pre.inline
            && g.pre.scripts <= m.pre.scripts && m.pre.scripts[|g.pre.scripts|..] == j.pre.scripts
            && g.post.inline <= m.post.inline && m.post.inline[|g.post.inline|..] == j.post.inline
            && g.post.scripts <= m.post.scripts && m.post.scripts[|g.post.scripts|..] == j.post.scripts
  {
  }

  predicate SSHFilled(own: SSH, global: SSH, merged: SSH) {
    && (own.user == "" ==> merged.user == global.user)
    && (own.port == 0 ==> merged.port == global.port)
    && (own.timeout.None? ==> merged.timeout == global.timeout)
  }

  predicate RsyncFilled(own: Rsync, global: Rsync, merged: Rsync) {
    && (!own.overrideInclude ==> merged.included == own.included + global.included)
    && (!own.overrideExclude ==> merged.excluded == own.excluded + global.excluded)
    && (!own.overrideArguments ==> merged.arguments == own.arguments + global.arguments)
    && merged.overrideInclude == own.overrideInclude && merged.overrideExclude == own.overrideExclude
    && merged.overrideArguments == own.overrideArguments
  }

  /** The globals fill the gaps: a section that only one of the two has is taken as it is; where both have it, the
      global user, port and timeout stand in for missing ones, and a list that is not overridden is the own entries
      followed by the global ones. */
  lemma GlobalsFillGaps(j: Job, g: Job)
    ensures var m := Merged(j, g);
            && (j.ssh.None? ==> m.ssh == g.ssh) && (g.ssh.None? ==> m.ssh == j.ssh)
            && (j.ssh.Some? && g.ssh.Some? ==> m.ssh.Some? && SSHFilled(j.ssh.value, g.ssh.value, m.ssh.value))
            && (j.rsync.None? ==> m.rsync == g.rsync) && (g.rsync.None? ==> m.rsync == j.rsync)
            && (j.rsync.Some? && g.rsync.Some? ==>
                  m.rsync.Some? && RsyncFilled(j.rsync.value, g.rsync.value, m.rsync.value))
  {
  }

  /** Nothing else does what these laws say: they fix every field of the merged job. */
  lemma MergedIsUnique(j: Job, g: Job, m: Job)
    requires m.host == j.host
    requires if j.ssh.None? then m.ssh == g.ssh else if g.ssh.None? then m.ssh == j.ssh
             else m.ssh.Some? && OwnSSHKept(j.ssh.value, m.ssh.value) && SSHFilled(j.ssh.value, g.ssh.value, m.ssh.value)
    requires if j.rsync.None? then m.rsync == g.rsync else if g.rsync.None? then m.rsync == j.rsync
             else && m.rsync.Some? && OwnRsyncKept(j.rsync.value, m.rsync.value)
                  && RsyncFilled(j.rsync.value, g.rsync.value, m.rsync.value)
    requires m.pre == Script(g.pre.inline + j.pre.inline, g.pre.scripts + j.pre.scripts)
    requires m.post == Script(g.post.inline + j.post.inline, g.post.scripts + j.post.scripts)
    ensures m == Merged(j, g)
  {
  }

  lemma SSHAssociative(a: Option<SSH>, b: Option<SSH>, c: Option<SSH>)
    ensures MergeSSH(MergeSSH(a, b), c) == MergeSSH(a, MergeSSH(b, c))
  {
  }

  lemma ScriptAssociative(a: Script, b: Script, c: Script)
    ensures MergeScript(MergeScript(a, b), c) == MergeScript(a, MergeScript(b, c))
  {
    assert (c.inline + b.inline) + a.inline == c.inline + (b.inline + a.inline);
    assert (c.scripts + b.scripts) + a.scripts == c.scripts + (b.scripts + a.scripts);
  }

  /** The middle layer overrides a list that the lowest inherits and the highest fills: merging the lower two
      first forgets the override. */
  predicate OverrideLost(a: bool, b: bool, c: seq<string>) {
    !a && b && c != []
  }

  lemma ListAssociative(a: seq<string>, ao: bool, b: seq<string>, bo: bool, c: seq<string>)
    ensures MergeList(MergeList(a, ao, b), ao, c) == MergeList(a, ao, MergeList(b, bo, c)) <==> !OverrideLost(ao, bo, c)
  {
    assert a + b + c == a + (b + c);
    if a + b + c == a + b {
      assert |c| == 0;
    }
  }

  /** Three layers can be merged in either order exactly when no override of the middle layer gets lost. */
  lemma Associative(a: Job, b: Job, c: Job)
    ensures Merged(Merged(a, b), c) == Merged(a, Merged(b, c)) <==>
            (a.rsync.Some? && b.rsync.Some? && c.rsync.Some? ==>
               && !OverrideLost(a.rsync.value.overrideInclude, b.rsync.value.overrideInclude, c.rsync.value.included)
               && !OverrideLost(a.rsync.value.overrideExclude, b.rsync.value.overrideExclude, c.rsync.value.excluded)
               && !OverrideLost(a.rsync.value.overrideArguments, b.rsync.value.overrideArguments,
                                c.rsync.value.arguments))
  {
    SSHAssociative(a.ssh, b.ssh, c.ssh);
    ScriptAssociative(a.pre, b.pre, c.pre);
    ScriptAssociative(a.post, b.post, c.post);
    if a.rsync.Some? && b.rsync.Some? && c.rsync.Some? {
      RsyncAssociative(a.rsync.value, b.rsync.value, c.rsync.value);
    }
  }

  function OneInclude(path: string, override_: bool): Job {
    Empty("host").(rsync := Some(Rsync([path], [], [], override_, false, false)))
  }

  /** The middle layer overrides the includes. Merged into the globals first, it shuts theirs out; merged into the
      host first, it does not. */
  lemma LostOverride()
    ensures var host, group, global := OneInclude("/etc", false), OneInclude("/home", true), OneInclude("/var", false);
            && Merged(Merged(host, group), global).rsync.value.included == ["/etc", "/home", "/var"]
            && Merged(host, Merged(group, global)).rsync.value.included == ["/etc", "/home"]
  {
    assert ["/etc"] + ["/home"] == ["/etc", "/home"] && ["/etc", "/home"] + ["/var"] == ["/etc", "/home", "/var"];
  }

  lemma RsyncAssociative(a: Rsync, b: Rsync, c: Rsync)
    ensures MergeRsync(MergeRsync(Some(a), Some(b)), Some(c)) == MergeRsync(Some(a), MergeRsync(Some(b), Some(c))) <==>
            && !OverrideLost(a.overrideInclude, b.overrideInclude, c.included)
            && !OverrideLost(a.overrideExclude, b.overrideExclude, c.excluded)
            && !OverrideLost(a.overrideArguments, b.overrideArguments, c.arguments)
  {
    ListAssociative(a.included, a.overrideInclude, b.included, b.overrideInclude, c.included);
    ListAssociative(a.excluded, a.overrideExclude, b.excluded, b.overrideExclude, c.excluded);
    ListAssociative(a.arguments, a.overrideArguments, b.arguments, b.overrideArguments, c.arguments);
  }
}
