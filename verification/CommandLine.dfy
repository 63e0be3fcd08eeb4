/** Splitting a command line into arguments and joining arguments into a line, from
    src/commands.c. Both work in a character buffer. */
module CommandLine {
  import opened CStrings
  import opened Options

  const MAX_ARGS := 128

  predicate Space(c: char) {
    c == ' ' || c == '\t' || c == '\r' || c == '\n'
  }

  // ----- tokens -----

  /** How many characters come before the first white space. */
  function Run(s: string): (n: nat)
    ensures n <= |s| && (n < |s| ==> Space(s[n]))
    ensures forall k :: 0 <= k < n ==> !Space(s[k])
  {
    if s == [] || Space(s[0]) then 0 else 1 + Run(s[1..])
  }

  /** The runs of characters between white space. */
  function Tokens(s: string): seq<string> {
    if s == [] then []
    else if Space(s[0]) then Tokens(s[1..])
    else [s[..Run(s)]] + Tokens(s[Run(s)..])
  }

  predicate Word(s: string) {
    s != [] && forall k :: 0 <= k < |s| ==> !Space(s[k])
  }

  lemma {:induction false} TokensAreWords(s: string, n: nat)
    requires n < |Tokens(s)|
    ensures Word(Tokens(s)[n])
    decreases |s|
  {
    if Space(s[0]) {
      TokensAreWords(s[1..], n);
    } else if n > 0 {
      TokensAreWords(s[Run(s)..], n - 1);
    }
  }

  lemma {:induction false} SkipSpaces(s: string, n: nat)
    requires n <= |s| && forall k :: 0 <= k < n ==> Space(s[k])
    ensures Tokens(s) == Tokens(s[n..])
  {
    if n > 0 {
      SkipSpaces(s[1..], n - 1);
      assert s[1..][n - 1..] == s[n..];
    } else {
      assert s[0..] == s;
    }
  }

  lemma WordFirst(a: string, r: string)
    requires Word(a) && (r != [] ==> Space(r[0]))
    ensures Tokens(a + r) == [a] + Tokens(r)
  {
    var s := a + r;
    assert !Space(s[0]) by {
      assert s[0] == a[0];
    }
    RunIs(s, |a|);
    assert s[..|a|] == a && s[|a|..] == r;
  }

  lemma RunIs(s: string, n: nat)
    requires n <= |s| && (n < |s| ==> Space(s[n])) && forall k :: 0 <= k < n ==> !Space(s[k])
    ensures Run(s) == n
  {
    var f := Run(s);
    assert !(f < n) && !(n < f);
  }

  // ----- joining -----

  /** The arguments with one space between them. */
  function Join(args: seq<string>): string {
    if args == [] then []
    else if |args| == 1 then args[0]
    else args[0] + ([' '] + Join(args[1..]))
  }

  lemma {:induction false} TokensOfJoin(args: seq<string>)
    requires forall i :: 0 <= i < |args| ==> Word(args[i])
    ensures Tokens(Join(args)) == args
  {
    if |args| == 1 {
      WordFirst(args[0], []);
      assert args[0] + [] == args[0];
    } else if |args| > 1 {
      TokensOfJoin(args[1..]);
      var rest := [' '] + Join(args[1..]);
      WordFirst(args[0], rest);
      assert rest[1..] == Join(args[1..]);
      assert [args[0]] + args[1..] == args;
    }
  }

  /** Splitting undoes joining exactly for arguments that are words. */
  lemma JoinRoundTrip(args: seq<string>)
    ensures Tokens(Join(args)) == args <==> forall i :: 0 <= i < |args| ==> Word(args[i])
  {
    if Tokens(Join(args)) == args {
      forall i | 0 <= i < |args|
        ensures Word(args[i])
      {
        TokensAreWords(Join(args), i);
      }
    } else if forall i :: 0 <= i < |args| ==> Word(args[i]) {
      TokensOfJoin(args);
    }
  }

  /** What the printing loop writes. */
  function Padded(args: seq<string>): string {
    if args == [] then [] else Padded(args[..|args| - 1]) + (args[|args| - 1] + [' '])
  }

  lemma PaddedNext(args: seq<string>, i: nat)
    requires i < |args|
    ensures Padded(args[..i + 1]) == Padded(args[..i]) + (args[i] + [' '])
  {
    assert args[..i + 1][..i] == args[..i];
  }

  lemma {:induction false} PaddedGrows(args: seq<string>, i: nat)
    requires i <= |args|
    ensures |Padded(args[..i])| <= |Padded(args)|
  {
    if i == |args| {
      assert args[..i] == args;
    } else {
      PaddedGrows(args[..|args| - 1], i);
      assert args[..|args| - 1][..i] == args[..i];
    }
  }

  lemma {:induction false} PaddedIsJoin(args: seq<string>)
    requires args != []
    ensures Padded(args) == Join(args) + [' ']
  {
    var init, a := args[..|args| - 1], args[|args| - 1];
    if init == [] {
      assert Padded(args) == [] + (a + [' ']);
    } else {
      PaddedIsJoin(init);
      JoinLast(init, a);
      assert init + [a] == args;
      assert Join(init) + [' '] + (a + [' ']) == Join(init) + ([' '] + a) + [' '];
    }
  }

  lemma {:induction false} JoinLast(args: seq<string>, a: string)
    requires args != []
    ensures Join(args + [a]) == Join(args) + ([' '] + a)
  {
    if |args| == 1 {
      assert (args + [a])[1..] == [a];
    } else {
      JoinLast(args[1..], a);
      assert (args + [a])[1..] == args[1..] + [a];
      assert args[0] + ([' '] + (Join(args[1..]) + ([' '] + a)))
          == args[0] + ([' '] + Join(args[1..])) + ([' '] + a);
    }
  }

  datatype Joined = Line(len: nat) | TooLong | NoArgs

  /** `snprintf`: writes what fits with a NUL, and gives the length it would have liked. */
  method Print(line: array<char>, at: nat, s: string) returns (n: nat)
    requires at <= line.Length
    modifies line
    ensures n == |s| && line[..at] == old(line[..at])
    ensures at + n < line.Length ==> line[..at + n] == old(line[..at]) + s && line[at + n] == '\0'
  {
    var room := line.Length - at;
    var w := if |s| < room then |s| else if room > 0 then room - 1 else 0;
    for k := 0 to w
      invariant line[..at + k] == old(line[..at]) + s[..k]
    {
      line[at + k] := s[k];
    }
    if room > 0 {
      line[at + w] := '\0';
    }
    n := |s|;
    assert line[..at] == old(line[..at]) by {
      assert line[..at] == line[..at + w][..at];
    }
  }

  /** No arguments make the source write before the buffer; this is kept apart as `NoArgs`.
      Otherwise the arguments are joined, exactly when with a space after each they take less
      than the buffer. */
  method Unsplit(line: array<char>, argv: seq<string>) returns (r: Joined)
    modifies line
    ensures r == NoArgs <==> argv == []
    ensures argv != [] ==> (r.Line? <==> |Join(argv)| + 1 < line.Length)
    ensures r.Line? ==> r.len == |Join(argv)| < line.Length && line[..r.len] == Join(argv) && line[r.len] == '\0'
  {
    var total := 0;
    for i := 0 to |argv|
      invariant total == |Padded(argv[..i])| && (i > 0 ==> total < line.Length) && total <= line.Length
      invariant line[..total] == Padded(argv[..i])
    {
      hide Padded, Join;
      PaddedNext(argv, i);
      var n := Print(line, total, argv[i] + [' ']);
      if n >= line.Length - total {
        PaddedGrows(argv, i + 1);
        PaddedIsJoin(argv);
        return TooLong;
      }
      total := total + n;
    }
    assert argv[..|argv|] == argv;
    if argv == [] {
      return NoArgs;
    }
    PaddedIsJoin(argv);
    total := total - 1;
    line[total] := '\0';
    assert line[..total] == Padded(argv)[..total];
    return Line(total);
  }

  // ----- splitting -----

  /** A token as a C string in the buffer. */
  predicate TokenAt(buf: seq<char>, at: nat, t: string) {
    at + |t| < |buf| && buf[at..at + |t|] == t && buf[at + |t|] == '\0' && NulFree(t)
  }

  /** `buf[j..k]` is the first token of `buf[pos..len]`, or there is none and `j` is `len`. */
  ghost predicate Bounds(buf: seq<char>, pos: nat, len: nat, j: nat, k: nat) {
    && pos <= j <= k <= len <= |buf|
    && (forall n :: pos <= n < j ==> Space(buf[n]))
    && (forall n :: j <= n < k ==> !Space(buf[n]))
    && (k < len ==> Space(buf[k]))
    && (j == k ==> j == len)
  }

  method FindToken(line: array<char>, pos: nat, len: nat) returns (j: nat, k: nat)
    requires pos <= len < line.Length
    ensures Bounds(line[..], pos, len, j, k)
  {
    j := pos;
    while j < len && Space(line[j])
      invariant pos <= j <= len
      invariant forall n :: pos <= n < j ==> Space(line[n])
    {
      j := j + 1;
    }
    k := j;
    while k < len && !Space(line[k])
      invariant j <= k <= len && (k == j < len ==> !Space(line[k]))
      invariant forall n :: j <= n < k ==> !Space(line[n])
    {
      k := k + 1;
    }
  }

  lemma BoundsTokens(buf: seq<char>, pos: nat, len: nat, j: nat, k: nat)
    requires Bounds(buf, pos, len, j, k)
    ensures Tokens(buf[pos..len]) ==
            if j == len then [] else [buf[j..k]] + Tokens(buf[if k < len then k + 1 else k..len])
  {
    hide Tokens;
    var s := buf[pos..len];
    SkipSpaces(s, j - pos);
    assert s[j - pos..] == buf[j..len];
    if j == len {
      NoTokens();
    } else {
      var t, r := buf[j..k], buf[k..len];
      assert buf[j..len] == t + r;
      SplitWord(t, r);
      assert k < len ==> r[1..] == buf[k + 1..len];
    }
  }

  lemma NulFreeParts(buf: seq<char>, pos: nat, len: nat, a: nat, b: nat)
    requires pos <= a <= b <= len <= |buf| && NulFree(buf[pos..len])
    ensures NulFree(buf[a..b])
  {
    forall n | a <= n < b
      ensures buf[n] != '\0'
    {
      assert buf[n] == buf[pos..len][n - pos];
    }
  }

  /** The next token from `pos` on, ended in place. */
  method NextToken(line: array<char>, pos: nat, len: nat) returns (tok: Option<nat>, save: nat)
    requires pos <= len < line.Length && line[len] == '\0' && NulFree(line[pos..len])
    modifies line
    ensures pos <= save <= len && line[len] == '\0' && NulFree(line[save..len])
    ensures line[..pos] == old(line[..pos])
    ensures var ts := Tokens(old(line[pos..len]));
            if tok == None then ts == [] && save == len && line[..] == old(line[..])
            else
              && pos < len && |ts| > 0 && ts[1..] == Tokens(line[save..len])
              && TokenAt(line[..], tok.value, ts[0])
              && (tok.value + |ts[0]| < save || save == len)
  {
    hide Tokens, NulFree;
    var j, k := FindToken(line, pos, len);
    BoundsTokens(line[..], pos, len, j, k);
    NulFreeParts(line[..], pos, len, j, k);
    NulFreeParts(line[..], pos, len, if k < len then k + 1 else k, len);
    hide Bounds;
    if j == len {
      return None, len;
    }
    ghost var t, r := line[j..k], line[if k < len then k + 1 else k..len];
    tok, save := Some(j), k;
    if k < len {
      line[k] := '\0';
      save := k + 1;
    }
    assert line[j..k] == t && line[save..len] == r;
  }

  lemma NoTokens()
    ensures Tokens([]) == []
  {
  }

  lemma SplitWord(t: string, r: string)
    requires Word(t) && (r != [] ==> Space(r[0]))
    ensures Tokens(t + r) == [t] + Tokens(if r == [] then [] else r[1..])
  {
    WordFirst(t, r);
  }

  /** What an argument vector of `n` places should hold for these tokens. */
  ghost predicate Filled(buf: seq<char>, argv: seq<Option<nat>>, ts: seq<string>) {
    && |argv| <= |ts|
    && (forall i :: 0 <= i < |argv| ==> argv[i].Some? && TokenAt(buf, argv[i].value, ts[i]))
  }

  /** All tokens so far end before `pos`, or the line is used up. */
  ghost predicate Settled(argv: seq<Option<nat>>, ts: seq<string>, pos: nat, len: nat) {
    && |argv| <= |ts|
    && (pos == len || forall i :: 0 <= i < |argv| ==> argv[i].Some? ==> argv[i].value + |ts[i]| < pos)
  }

  lemma FilledStays(buf: seq<char>, buf': seq<char>, argv: seq<Option<nat>>, ts: seq<string>, pos: nat)
    requires Filled(buf, argv, ts) && pos <= |buf| == |buf'| && buf'[..pos] == buf[..pos]
    requires forall i :: 0 <= i < |argv| ==> argv[i].value + |ts[i]| < pos
    ensures Filled(buf', argv, ts)
  {
    forall i | 0 <= i < |argv|
      ensures TokenAt(buf', argv[i].value, ts[i])
    {
      var at, e := argv[i].value, argv[i].value + |ts[i]|;
      assert TokenAt(buf, at, ts[i]);
      assert forall n :: 0 <= n < pos ==> buf'[n] == buf'[..pos][n] == buf[..pos][n] == buf[n];
      assert buf'[at..e] == buf[at..e];
    }
  }

  /** The first 127 tokens of the line. A blank line still counts as one argument, a null one. */
  method Split(line: array<char>, len: nat) returns (argc: nat, argv: seq<Option<nat>>)
    requires len < line.Length && line[len] == '\0' && NulFree(line[..len])
    modifies line
    ensures var ts := Tokens(old(line[..len]));
            && argc == |argv|
            && (ts == [] ==> argv == [None])
            && (ts != [] ==> argc == (if |ts| < MAX_ARGS then |ts| else MAX_ARGS - 1) && Filled(line[..], argv, ts))
  {
    hide Tokens, TokenAt, NulFree;
    ghost var ts := Tokens(line[..len]);
    assert line[0..len] == line[..len];
    var tok, pos := NextToken(line, 0, len);
    argv := [tok];
    var i := 1;
    while i < MAX_ARGS - 1
      invariant 1 <= i <= MAX_ARGS - 1 && |argv| == i && pos <= len
      invariant line[len] == '\0' && NulFree(line[pos..len])
      invariant ts == [] ==> argv == [None] && pos == len
      invariant ts != [] ==> Filled(line[..], argv, ts) && Settled(argv, ts, pos, len)
      invariant ts != [] ==> ts[i..] == Tokens(line[pos..len])
    {
      ghost var buf, was := line[..], pos;
      tok, pos := NextToken(line, pos, len);
      if tok == None {
        break;
      }
      FilledStays(buf, line[..], argv, ts, was);
      FilledMore(line[..], argv, ts, tok.value);
      argv := argv + [tok];
      i := i + 1;
    }
    argc := i;
  }

  lemma FilledMore(buf: seq<char>, argv: seq<Option<nat>>, ts: seq<string>, at: nat)
    requires Filled(buf, argv, ts) && |argv| < |ts| && TokenAt(buf, at, ts[|argv|])
    ensures Filled(buf, argv + [Some(at)], ts)
  {
  }

  // ----- the round trip -----

  ghost predicate Reads(buf: seq<char>, argc: nat, argv: seq<Option<nat>>, args: seq<string>) {
    && argc == |argv| == |args|
    && (forall i :: 0 <= i < |args| ==>
          argv[i].Some? && argv[i].value <= |buf| && CString(buf, argv[i].value) == args[i])
  }

  lemma FilledReads(buf: seq<char>, argv: seq<Option<nat>>, ts: seq<string>)
    requires Filled(buf, argv, ts)
    ensures Reads(buf, |argv|, argv, ts[..|argv|])
  {
    forall i | 0 <= i < |argv|
      ensures CString(buf, argv[i].value) == ts[i]
    {
      assert TokenAt(buf, argv[i].value, ts[i]);
      CStringReads(buf, argv[i].value, ts[i]);
    }
  }

  /** Joined in a buffer and split there again, the arguments are the same exactly when they are
      words and there are at most 127 of them. */
  method JoinAndSplit(line: array<char>, args: seq<string>)
    returns (r: Joined, argc: nat, argv: seq<Option<nat>>)
    requires forall i :: 0 <= i < |args| ==> NulFree(args[i])
    modifies line
    ensures r.Line? <==> args != [] && |Join(args)| + 1 < line.Length
    ensures r.Line? ==>
      (Reads(line[..], argc, argv, args) <==> |args| < MAX_ARGS && forall i :: 0 <= i < |args| ==> Word(args[i]))
  {
    argc, argv := 0, [];
    r := Unsplit(line, args);
    if !r.Line? {
      return;
    }
    JoinNulFree(args);
    argc, argv := Split(line, r.len);
    Compare(line[..], argc, argv, args);
  }

  lemma Compare(buf: seq<char>, argc: nat, argv: seq<Option<nat>>, args: seq<string>)
    requires args != [] && argc == |argv|
    requires var ts := Tokens(Join(args));
             && (ts == [] ==> argv == [None])
             && (ts != [] ==> argc == (if |ts| < MAX_ARGS then |ts| else MAX_ARGS - 1) && Filled(buf, argv, ts))
    ensures Reads(buf, argc, argv, args) <==> |args| < MAX_ARGS && forall i :: 0 <= i < |args| ==> Word(args[i])
  {
    var ts := Tokens(Join(args));
    FirstTokens(args);
    hide Tokens, Join, TokenAt, Word, CString;
    if ts == [] {
      assert argv[0] == None;
    } else {
      FilledReads(buf, argv, ts);
      assert Reads(buf, argc, argv, args) ==> ts[..argc] == args;
    }
  }

  /** The tokens counted are the arguments only when all the tokens are. */
  lemma FirstTokens(args: seq<string>)
    requires args != []
    ensures var ts := Tokens(Join(args));
            var m := if |ts| < MAX_ARGS then |ts| else MAX_ARGS - 1;
            ts[..m] == args <==> |args| < MAX_ARGS && forall i :: 0 <= i < |args| ==> Word(args[i])
  {
    var ts := Tokens(Join(args));
    var m := if |ts| < MAX_ARGS then |ts| else MAX_ARGS - 1;
    JoinRoundTrip(args);
    if ts[..m] == args {
      forall i | 0 <= i < |args|
        ensures Word(args[i])
      {
        TokensAreWords(Join(args), i);
      }
    } else if ts == args {
      assert ts[..|ts|] == ts;
    }
  }

  lemma {:induction false} JoinNulFree(args: seq<string>)
    requires forall i :: 0 <= i < |args| ==> NulFree(args[i])
    ensures NulFree(Join(args))
  {
    if |args| > 1 {
      JoinNulFree(args[1..]);
    }
  }
}
