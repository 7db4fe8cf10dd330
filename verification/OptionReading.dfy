/** How a program like rsync reads its command line: options, the values that some of them take from the next
    token, and `--`, which ends the options. Which options want the next token is up to the program. */
module OptionReading {

  /** What the reader expects next: a token of its own, the value of the option before, or no more options. */
  datatype Mode = Ready | Owing | Ended

  predicate LooksLikeFlag(s: string) {
    s != "" && s[0] == '-'
  }

  /** `--` ends the options, and a lone `-` is a file. */
  predicate IsOption(s: string) {
    LooksLikeFlag(s) && s != "--" && s != "-"
  }

  /** Options without values, or with values of their own. */
  predicate AllFlags(takes: string -> bool, toks: seq<string>) {
    forall tok :: tok in toks ==> IsOption(tok) && !takes(tok)
  }

  predicate NoFlags(toks: seq<string>) {
    forall tok :: tok in toks ==> !LooksLikeFlag(tok)
  }

  function NextMode(takes: string -> bool, mode: Mode, tok: string): Mode {
    match mode
    case Ready => if tok == "--" then Ended else if IsOption(tok) && takes(tok) then Owing else Ready
    case Owing => Ready
    case Ended => Ended
  }

  function After(takes: string -> bool, mode: Mode, toks: seq<string>): Mode
    decreases |toks|
  {
    if toks == [] then mode else After(takes, NextMode(takes, mode, toks[0]), toks[1..])
  }

  /** The tokens that are read as options. */
  function OptionsRead(takes: string -> bool, mode: Mode, toks: seq<string>): (read: seq<string>)
    ensures forall tok :: tok in read ==> tok in toks
    decreases |toks|
  {
    if toks == [] then []
    else (if mode == Ready && IsOption(toks[0]) then [toks[0]] else [])
         + OptionsRead(takes, NextMode(takes, mode, toks[0]), toks[1..])
  }

  /** The tokens that are read as files. */
  function FilesRead(takes: string -> bool, mode: Mode, toks: seq<string>): seq<string>
    decreases |toks|
  {
    if toks == [] then []
    else (if IsFile(mode, toks[0]) then [toks[0]] else []) + FilesRead(takes, NextMode(takes, mode, toks[0]), toks[1..])
  }

  predicate IsFile(mode: Mode, tok: string) {
    mode == Ended || (mode == Ready && !IsOption(tok) && tok != "--")
  }

  lemma {:induction false} FilesAppend(takes: string -> bool, mode: Mode, a: seq<string>, b: seq<string>)
    ensures FilesRead(takes, mode, a + b) == FilesRead(takes, mode, a) + FilesRead(takes, After(takes, mode, a), b)
    decreases |a|
  {
    if a == [] {
      assert a + b == b;
    } else {
      var next := NextMode(takes, mode, a[0]);
      FilesAppend(takes, next, a[1..], b);
      assert (a + b)[1..] == a[1..] + b;
      var head := if IsFile(mode, a[0]) then [a[0]] else [];
      assert head + (FilesRead(takes, next, a[1..]) + FilesRead(takes, After(takes, next, a[1..]), b))
          == head + FilesRead(takes, next, a[1..]) + FilesRead(takes, After(takes, next, a[1..]), b);
    }
  }

  /** Options that carry their values with them are no files, and after the end of the options everything is one. */
  lemma {:induction false} FlagsAreNoFiles(takes: string -> bool, toks: seq<string>)
    requires AllFlags(takes, toks)
    ensures FilesRead(takes, Ready, toks) == []
  {
    if toks != [] {
      assert toks[0] in toks;
      FlagsAreNoFiles(takes, toks[1..]);
    }
  }

  lemma {:induction false} AllFiles(takes: string -> bool, mode: Mode, toks: seq<string>)
    requires mode == Ended || (mode == Ready && NoFlags(toks))
    ensures FilesRead(takes, mode, toks) == toks
    decreases |toks|
  {
    if toks != [] {
      assert toks[0] in toks;
      AllFiles(takes, NextMode(takes, mode, toks[0]), toks[1..]);
    }
  }

  lemma FilesAfterFlags(takes: string -> bool, mode: Mode, flags: seq<string>, files: seq<string>)
    requires flags != [] && AllFlags(takes, flags) && NoFlags(files)
    ensures FilesRead(takes, mode, flags + files) == if mode == Ended then flags + files else files
  {
    match mode {
      case Ended => AllFiles(takes, Ended, flags + files);
      case Ready => ReadyForBoth(takes, flags, files);
      case Owing =>
        OwedIsNoFile(takes, flags + files);
        ReadyForBoth(takes, flags[1..], files);
        DropHead(flags, files);
    }
  }

  lemma DropHead(flags: seq<string>, files: seq<string>)
    requires flags != []
    ensures (flags + files)[1..] == flags[1..] + files
  {
  }

  lemma ReadyForBoth(takes: string -> bool, flags: seq<string>, files: seq<string>)
    requires AllFlags(takes, flags) && NoFlags(files)
    ensures OptionsRead(takes, Ready, flags + files) == flags && FilesRead(takes, Ready, flags + files) == files
  {
    hide OptionsRead, FilesRead, After;
    AllRead(takes, flags);
    FlagsAreNoFiles(takes, flags);
    NoneRead(takes, Ready, files);
    AllFiles(takes, Ready, files);
    ReadAppend(takes, Ready, flags, files);
    FilesAppend(takes, Ready, flags, files);
    assert flags + [] == flags && [] + files == files;
  }

  lemma OwedIsNoFile(takes: string -> bool, toks: seq<string>)
    requires toks != []
    ensures FilesRead(takes, Owing, toks) == FilesRead(takes, Ready, toks[1..])
  {
  }

  lemma {:induction false} ReadAppend(takes: string -> bool, mode: Mode, a: seq<string>, b: seq<string>)
    ensures After(takes, mode, a + b) == After(takes, After(takes, mode, a), b)
    ensures OptionsRead(takes, mode, a + b) == OptionsRead(takes, mode, a) + OptionsRead(takes, After(takes, mode, a), b)
    decreases |a|
  {
    if a == [] {
      assert a + b == b;
    } else {
      var next := NextMode(takes, mode, a[0]);
      ReadAppend(takes, next, a[1..], b);
      assert (a + b)[1..] == a[1..] + b;
      var head := if mode == Ready && IsOption(a[0]) then [a[0]] else [];
      assert head + (OptionsRead(takes, next, a[1..]) + OptionsRead(takes, After(takes, next, a[1..]), b))
          == head + OptionsRead(takes, next, a[1..]) + OptionsRead(takes, After(takes, next, a[1..]), b);
    }
  }

  /** Options that all carry their values with them are all read. */
  lemma {:induction false} AllRead(takes: string -> bool, toks: seq<string>)
    requires AllFlags(takes, toks)
    ensures After(takes, Ready, toks) == Ready && OptionsRead(takes, Ready, toks) == toks
  {
    if toks != [] {
      assert toks[0] in toks;
      AllRead(takes, toks[1..]);
    }
  }

  lemma {:induction false} NoneRead(takes: string -> bool, mode: Mode, toks: seq<string>)
    requires mode == Ended || NoFlags(toks)
    ensures OptionsRead(takes, mode, toks) == []
    decreases |toks|
  {
    if toks != [] {
      assert toks[0] in toks;
      NoneRead(takes, NextMode(takes, mode, toks[0]), toks[1..]);
    }
  }

  /** How much is read of flags without values, depending on how the reader comes to them. */
  function FlagsRead(mode: Mode, flags: seq<string>): seq<string>
    requires flags != []
  {
    match mode
    case Ready => flags
    case Owing => flags[1..]
    case Ended => []
  }

  lemma OwedValue(takes: string -> bool, toks: seq<string>)
    requires toks != []
    ensures OptionsRead(takes, Owing, toks) == OptionsRead(takes, Ready, toks[1..])
  {
  }

  lemma FlagsThenFiles(takes: string -> bool, mode: Mode, flags: seq<string>, files: seq<string>)
    requires flags != [] && AllFlags(takes, flags) && NoFlags(files)
    ensures OptionsRead(takes, mode, flags + files) == FlagsRead(mode, flags)
  {
    match mode {
      case Ended => NoneRead(takes, Ended, flags + files);
      case Ready => ReadyForBoth(takes, flags, files);
      case Owing =>
        OwedValue(takes, flags + files);
        ReadyForBoth(takes, flags[1..], files);
        DropHead(flags, files);
    }
  }

  // ---------------------------------------------------------------------
  // The values that options take

  /** A token read as the value of the option before it. */
  datatype Taken = Taken(option: string, value: string)

  /** The values read from the tokens; `last` is the token before them. */
  function ValuesRead(takes: string -> bool, mode: Mode, last: string, toks: seq<string>): seq<Taken>
    decreases |toks|
  {
    if toks == [] then []
    else (if mode == Owing then [Taken(last, toks[0])] else [])
         + ValuesRead(takes, NextMode(takes, mode, toks[0]), toks[0], toks[1..])
  }

  function LastOf(last: string, toks: seq<string>): string {
    if toks == [] then last else toks[|toks| - 1]
  }

  lemma {:induction false} ValuesAppend(takes: string -> bool, mode: Mode, last: string, a: seq<string>, b: seq<string>)
    ensures ValuesRead(takes, mode, last, a + b) ==
            ValuesRead(takes, mode, last, a) + ValuesRead(takes, After(takes, mode, a), LastOf(last, a), b)
    decreases |a|
  {
    if a == [] {
      assert a + b == b;
    } else {
      var next := NextMode(takes, mode, a[0]);
      ValuesAppend(takes, next, a[0], a[1..], b);
      assert (a + b)[1..] == a[1..] + b;
      var head := if mode == Owing then [Taken(last, a[0])] else [];
      var rest := ValuesRead(takes, After(takes, mode, a), LastOf(last, a), b);
      assert head + (ValuesRead(takes, next, a[0], a[1..]) + rest) == head + ValuesRead(takes, next, a[0], a[1..]) + rest;
    }
  }

  /** Options with values of their own take none from the next token, and neither do files. */
  lemma {:induction false} NothingTaken(takes: string -> bool, mode: Mode, last: string, toks: seq<string>)
    requires mode == Ended || (mode == Ready && forall tok :: tok in toks ==> !takes(tok) || !IsOption(tok))
    ensures ValuesRead(takes, mode, last, toks) == []
    decreases |toks|
  {
    if toks != [] {
      assert toks[0] in toks;
      NothingTaken(takes, NextMode(takes, mode, toks[0]), toks[0], toks[1..]);
    }
  }

  /** Only the first token can be owed when none of the options takes a value. */
  lemma OnlyOwedTaken(takes: string -> bool, mode: Mode, last: string, toks: seq<string>)
    requires toks != [] && forall tok :: tok in toks ==> !takes(tok) || !IsOption(tok)
    ensures ValuesRead(takes, mode, last, toks) == if mode == Owing then [Taken(last, toks[0])] else []
  {
    if mode == Owing {
      NothingTaken(takes, Ready, toks[0], toks[1..]);
    } else {
      NothingTaken(takes, mode, last, toks);
    }
  }

  lemma {:induction false} TakersStandThere(takes: string -> bool, mode: Mode, last: string, toks: seq<string>)
    ensures forall t :: t in ValuesRead(takes, mode, last, toks) ==>
              (t.option in toks && IsOption(t.option)) || (mode == Owing && t.option == last)
    decreases |toks|
  {
    if toks != [] {
      var next := NextMode(takes, mode, toks[0]);
      TakersStandThere(takes, next, toks[0], toks[1..]);
      assert forall tok :: tok in toks[1..] ==> tok in toks;
    }
  }

  /** How many bare value-taking options stand at the end. */
  function TrailingRun(takes: string -> bool, toks: seq<string>): nat {
    if toks == [] then 0
    else
      var last := toks[|toks| - 1];
      if IsOption(last) && takes(last) then 1 + TrailingRun(takes, toks[..|toks| - 1]) else 0
  }

  /** A value is still owed at the end exactly when an odd number of bare value-taking options stands there:
      of two in a row, the second is the value of the first. */
  lemma {:induction false} OwingExactly(takes: string -> bool, toks: seq<string>)
    requires "--" !in toks
    ensures After(takes, Ready, toks) == if TrailingRun(takes, toks) % 2 == 1 then Owing else Ready
  {
    if toks != [] {
      var front, last := toks[..|toks| - 1], toks[|toks| - 1];
      assert toks == front + [last];
      OwingExactly(takes, front);
      ReadAppend(takes, Ready, front, [last]);
      assert last in toks;
      assert After(takes, After(takes, Ready, front), [last]) == NextMode(takes, After(takes, Ready, front), last);
    }
  }
}
