/** getopt.c: the option scanner with its persistent position. Strings hold no NUL. */
module Getopt {
  import opened Bits

  /** The scanner between two calls: what is left of the word being scanned, and the index of the next word. */
  datatype Scanner = Scanner(place: string, optind: nat)

  /** What a call returns: end of options, '?', or an option letter with its argument, if it has one. */
  datatype Result = Eof | Bad(optopt: char) | Found(optopt: char, optarg: Option<string>)

  const INITIAL := Scanner("", 1)

  /** What follows the first `c` in the option string, if `c` is in it. */
  function Index(ostr: string, c: char): (r: Option<string>)
    decreases |ostr|
  {
    if ostr == [] then None else if ostr[0] == c then Some(ostr[1..]) else Index(ostr[1..], c)
  }

  /** The letter is one that the option string knows; a colon never is. */
  predicate Known(ostr: string, c: char) { c != ':' && Index(ostr, c).Some? }

  /** ... and takes an argument. */
  predicate TakesArg(ostr: string, c: char) {
    Known(ostr, c) && Index(ostr, c).value != [] && Index(ostr, c).value[0] == ':'
  }

  predicate Prefix(c: char) { c == '-' || c == '/' }

  /** The scanning pointer is updated: the new position, or the position in which the scan ends. */
  datatype Load = Ready(s: Scanner) | Ended(s: Scanner)

  function LoadWord(s: Scanner, argv: seq<string>): (load: Load)
    ensures load.Ready? ==> load.s.place != []
  {
    if s.place != [] then Ready(s)
    else if s.optind >= |argv| then Ended(s)
    else
      var word := argv[s.optind];
      if word == [] || !Prefix(word[0]) then Ended(s.(place := word))
      else if |word| > 1 && word[1] == '-' then Ended(Scanner(word[1..], s.optind + 1))
      else Ready(s.(place := if |word| > 1 then word[1..] else word))
  }

  /** One letter is taken from the position, with its argument. */
  function TakeLetter(s: Scanner, argv: seq<string>, ostr: string): (Scanner, Result)
    requires s.place != []
  {
    var c, rest := s.place[0], s.place[1..];
    var next := if rest == [] then s.optind + 1 else s.optind;
    if !Known(ostr, c) then (Scanner(rest, next), Bad(c))
    else if !TakesArg(ostr, c) then (Scanner(rest, next), Found(c, None))
    else if rest != [] then (Scanner("", s.optind + 1), Found(c, Some(rest)))
    else if s.optind + 1 >= |argv| then (Scanner("", s.optind + 1), Bad(c))
    else (Scanner("", s.optind + 2), Found(c, Some(argv[s.optind + 1])))
  }

  function Step(s: Scanner, argv: seq<string>, ostr: string): (Scanner, Result) {
    match LoadWord(s, argv)
    case Ended(e) => (e, Eof)
    case Ready(r) => TakeLetter(r, argv, ostr)
  }

  lemma {:induction false} IndexOf(ostr: string, c: char, k: nat)
    requires k < |ostr| && ostr[k] == c && c !in ostr[..k]
    ensures Index(ostr, c) == Some(ostr[k + 1..])
    decreases k
  {
    if k > 0 {
      assert ostr[0] == ostr[..k][0] && ostr[1..][..k - 1] == ostr[..k][1..];
      IndexOf(ostr[1..], c, k - 1);
      assert ostr[1..][k..] == ostr[k + 1..];
    }
  }

  lemma {:induction false} NoIndex(ostr: string, c: char)
    requires c !in ostr
    ensures Index(ostr, c) == None
    decreases |ostr|
  {
    if ostr != [] {
      NoIndex(ostr[1..], c);
    }
  }

  /** A letter that the option string does not have, or a colon, is an error and takes nothing else. */
  lemma UnknownLetter(s: Scanner, argv: seq<string>, ostr: string)
    requires s.place != [] && (s.place[0] == ':' || s.place[0] !in ostr)
    ensures Step(s, argv, ostr)
            == (Scanner(s.place[1..], if |s.place| == 1 then s.optind + 1 else s.optind), Bad(s.place[0]))
  {
    if s.place[0] !in ostr {
      NoIndex(ostr, s.place[0]);
    }
  }

  /** A letter that stands at `k` in the option string, and nowhere before: a colon after it says that it takes an
      argument, which is the rest of the word, or the next word; without one it is an error. */
  lemma KnownLetter(s: Scanner, argv: seq<string>, ostr: string, k: nat)
    requires s.place != [] && s.place[0] != ':' && k < |ostr| && ostr[k] == s.place[0] && s.place[0] !in ostr[..k]
    ensures var c, rest, n := s.place[0], s.place[1..], s.optind;
            Step(s, argv, ostr) ==
              if k + 1 == |ostr| || ostr[k + 1] != ':' then
                (Scanner(rest, if rest == [] then n + 1 else n), Found(c, None))
              else if rest != [] then (Scanner("", n + 1), Found(c, Some(rest)))
              else if n + 1 < |argv| then (Scanner("", n + 2), Found(c, Some(argv[n + 1])))
              else (Scanner("", n + 1), Bad(c))
  {
    IndexOf(ostr, s.place[0], k);
  }

  /** A new word: without '-' or '/' in front, or if there is none, the options are over and it is not taken; with a
      second character '-' they are over and it is; otherwise its letters are next, or a lone prefix itself. */
  lemma NewWord(n: nat, argv: seq<string>, ostr: string)
    ensures var s := Step(Scanner("", n), argv, ostr);
            && (n >= |argv| || argv[n] == [] || (argv[n][0] != '-' && argv[n][0] != '/') ==>
                 s.1 == Eof && s.0.optind == n)
            && (n < |argv| && argv[n] != [] && (argv[n][0] == '-' || argv[n][0] == '/') ==>
                 if |argv[n]| == 1 then s == Step(Scanner(argv[n], n), argv, ostr)
                 else if argv[n][1] == '-' then s.1 == Eof && s.0.optind == n + 1
                 else s == Step(Scanner(argv[n][1..], n), argv, ostr))
  {
    hide TakeLetter;
  }

  /** Characters left in the words from `i` on, counting one for the end of each. */
  function Total(argv: seq<string>, i: nat): nat
    decreases |argv| - i
  {
    if i >= |argv| then 0 else |argv[i]| + 1 + Total(argv, i + 1)
  }

  /** What is left to scan. */
  function Left(s: Scanner, argv: seq<string>): nat {
    if s.place == [] then Total(argv, s.optind) else |s.place| + Total(argv, s.optind + 1)
  }

  /** Every call that returns an option, right or wrong, leaves less to scan. */
  lemma StepsAreFinite(s: Scanner, argv: seq<string>, ostr: string)
    ensures Step(s, argv, ostr).1 == Eof || Left(Step(s, argv, ostr).0, argv) < Left(s, argv)
  {
    hide Known, TakesArg;
    var load := LoadWord(s, argv);
    if load.Ready? {
      assert Left(load.s, argv) <= Left(s, argv);
    }
  }

  /** All results until the end of options, and where the scanner stops. */
  function Scan(s: Scanner, argv: seq<string>, ostr: string): (seq<Result>, Scanner)
    decreases Left(s, argv)
  {
    StepsAreFinite(s, argv, ostr);
    var (next, out) := Step(s, argv, ostr);
    if out == Eof then ([], next) else Then([out], Scan(next, argv, ostr))
  }

  function Then(front: seq<Result>, scan: (seq<Result>, Scanner)): (seq<Result>, Scanner) {
    (front + scan.0, scan.1)
  }

  /** The scan continued by one call. */
  lemma ScanOne(done: seq<Result>, s: Scanner, argv: seq<string>, ostr: string)
    ensures var (next, out) := Step(s, argv, ostr);
            Then(done, Scan(s, argv, ostr))
            == if out == Eof then (done, next) else Then(done + [out], Scan(next, argv, ostr))
  {
    hide Step, Left;
    var (next, out) := Step(s, argv, ostr);
    assert done + [] == done;
    assert out != Eof ==> done + ([out] + Scan(next, argv, ostr).0) == done + [out] + Scan(next, argv, ostr).0;
  }

  /** What the caller sees of one call. */
  datatype Call = Call(letter: char, optopt: char, optarg: Option<string>)

  predicate Shows(r: Result, call: Call) {
    match r
    case Eof => false
    case Bad(o) => call.letter == '?' && call.optopt == o
    case Found(o, arg) => call == Call(o, o, arg)
  }

  predicate AllShown(rs: seq<Result>, calls: seq<Call>) {
    |rs| == |calls| && forall k :: 0 <= k < |rs| ==> Shows(rs[k], calls[k])
  }

  class Parser {
    var place: string
    var optind: nat
    var optopt: char
    var optarg: Option<string>

    function View(): Scanner
      reads this
    {
      Scanner(place, optind)
    }

    constructor ()
      ensures View() == INITIAL
    {
      place, optind, optarg := "", 1, None;
      optopt := ':';
    }

    /** The first occurrence of `c`, as an index, or the length if there is none. */
    method Find(ostr: string, c: char) returns (k: nat)
      ensures k <= |ostr|
      ensures Index(ostr, c) == if k < |ostr| then Some(ostr[k + 1..]) else None
    {
      k := 0;
      assert ostr[0..] == ostr;
      while k < |ostr| && ostr[k] != c
        invariant k <= |ostr|
        invariant Index(ostr, c) == Index(ostr[k..], c)
      {
        assert ostr[k..][1..] == ostr[k + 1..];
        k := k + 1;
      }
      assert k < |ostr| ==> ostr[k..][1..] == ostr[k + 1..];
    }

    /** One call of getopt: None for EOF, '?' for an error, or the option letter. */
    method Next(argv: seq<string>, ostr: string) returns (c: Option<char>)
      modifies this
      ensures View() == Step(old(View()), argv, ostr).0
      ensures match Step(old(View()), argv, ostr).1
              case Eof => c == None
              case Bad(o) => c == Some('?') && optopt == o
              case Found(o, arg) => c == Some(o) && optopt == o && optarg == arg
    {
      if place == [] {
        if optind >= |argv| {
          return None;
        }
        place := argv[optind];
        if place == [] || (place[0] != '/' && place[0] != '-') {
          return None;
        }
        if |place| > 1 {
          place := place[1..];
          if place[0] == '-' {
            optind := optind + 1;
            return None;
          }
        }
      }
      c := Letter(argv, ostr);
    }

    method Letter(argv: seq<string>, ostr: string) returns (c: Option<char>)
      requires place != []
      modifies this
      ensures View() == TakeLetter(old(View()), argv, ostr).0
      ensures match TakeLetter(old(View()), argv, ostr).1
              case Eof => false
              case Bad(o) => c == Some('?') && optopt == o
              case Found(o, arg) => c == Some(o) && optopt == o && optarg == arg
    {
      optopt, place := place[0], place[1..];
      var k := Find(ostr, optopt);
      if optopt == ':' || k == |ostr| {
        if place == [] {
          optind := optind + 1;
        }
        return Some('?');
      }
      if k + 1 == |ostr| || ostr[k + 1] != ':' {
        optarg := None;
        if place == [] {
          optind := optind + 1;
        }
      } else {
        if place != [] {
          optarg := Some(place);
        } else {
          optind := optind + 1;
          if |argv| <= optind {
            place := "";
            return Some('?');
          }
          optarg := Some(argv[optind]);
        }
        place := "";
        optind := optind + 1;
      }
      c := Some(optopt);
    }

    /** The caller's loop (vuserutils.cpp): options are taken until there are no more; it ends for every argv. */
    method All(argv: seq<string>, ostr: string) returns (calls: seq<Call>)
      modifies this
      ensures AllShown(Scan(old(View()), argv, ostr).0, calls)
      ensures View() == Scan(old(View()), argv, ostr).1
    {
      calls := [];
      ghost var whole, done, out := Then([], Scan(View(), argv, ostr)), [], Step(View(), argv, ostr).1;
      assert [] + Scan(View(), argv, ostr).0 == Scan(View(), argv, ostr).0;
      ScanOne([], View(), argv, ostr);
      var c := Next(argv, ostr);
      while c.Some?
        invariant c.Some? <==> out != Eof
        invariant AllShown(done, calls)
        invariant c.Some? ==> Shows(out, Call(c.value, optopt, optarg))
        invariant whole == if c.Some? then Then(done + [out], Scan(View(), argv, ostr)) else (done, View())
        decreases c.Some?, Left(View(), argv)
      {
        calls, done := calls + [Call(c.value, optopt, optarg)], done + [out];
        StepsAreFinite(View(), argv, ostr);
        ScanOne(done, View(), argv, ostr);
        out := Step(View(), argv, ostr).1;
        c := Next(argv, ostr);
      }
    }
  }
}

/** Rendering an option list as words, and scanning the words again. */
module OptionRendering {
  import opened Bits
  import opened Getopt

  /** One or two words: a cluster of plain letters, possibly followed by a letter with its argument. */
  datatype Token =
    | Plain(prefix: char, letters: string)
    | WithArg(prefix: char, letters: string, letter: char, arg: string, attached: bool)
  {
    /** The letters after the prefix. */
    function Letters(): string { if Plain? then letters else letters + [letter] }

    function Words(): (words: seq<string>)
      ensures words != []
    {
      if Plain? then [[prefix] + letters]
      else if attached then [[prefix] + letters + [letter] + arg]
      else [[prefix] + letters + [letter], arg]
    }

    function Meaning(): seq<Result> {
      if Plain? then Flags(letters) else Flags(letters) + [Found(letter, Some(arg))]
    }

    /** The option string has these letters, in these roles. */
    predicate Wanted(ostr: string) {
      && Prefix(prefix) && Letters() != []
      && (forall c :: c in letters ==> IsFlag(ostr, c))
      && (WithArg? ==> TakesArg(ostr, letter))
    }

    /** The word is not the terminator, and an attached argument is there to be seen. */
    predicate Readable() {
      (Letters() != [] ==> Letters()[0] != '-') && (WithArg? && attached ==> arg != [])
    }
  }

  predicate IsFlag(ostr: string, c: char) { Known(ostr, c) && !TakesArg(ostr, c) }

  function Flags(letters: string): seq<Result> {
    if letters == [] then [] else [Found(letters[0], None)] + Flags(letters[1..])
  }

  function Words(tokens: seq<Token>): seq<string> {
    if tokens == [] then [] else tokens[0].Words() + Words(tokens[1..])
  }

  function Meanings(tokens: seq<Token>): seq<Result> {
    if tokens == [] then [] else tokens[0].Meaning() + Meanings(tokens[1..])
  }

  /** "--", or any word with a prefix and a second character '-'. */
  predicate Terminator(word: string) { |word| > 1 && Prefix(word[0]) && word[1] == '-' }

  predicate Operand(word: string) { word == [] || !Prefix(word[0]) }

  /** The words after the options: none, or beginning with an operand or a terminator. */
  predicate Tail(words: seq<string>) { words == [] || Operand(words[0]) || Terminator(words[0]) }

  function Operands(tail: seq<string>): seq<string> {
    if tail != [] && Terminator(tail[0]) then tail[1..] else tail
  }

  /** The position once `place` is the rest of word i. */
  function At(place: string, i: nat): Scanner { Scanner(place, if place == [] then i + 1 else i) }

  /** Plain letters are returned one by one, whatever follows them. */
  lemma {:induction false} FlagsScanned(letters: string, after: string, i: nat, argv: seq<string>, ostr: string)
    requires forall c :: c in letters ==> IsFlag(ostr, c)
    ensures Scan(At(letters + after, i), argv, ostr) == Then(Flags(letters), Scan(At(after, i), argv, ostr))
  {
    hide Known, TakesArg, Left;
    var tail := Scan(At(after, i), argv, ostr);
    if letters == [] {
      assert letters + after == after && [] + tail.0 == tail.0;
    } else {
      var rest := letters[1..] + after;
      assert (letters + after)[0] == letters[0] && (letters + after)[1..] == rest;
      assert IsFlag(ostr, letters[0]);
      assert Step(At(letters + after, i), argv, ostr) == (At(rest, i), Found(letters[0], None));
      FlagsScanned(letters[1..], after, i, argv, ostr);
      assert [Found(letters[0], None)] + (Flags(letters[1..]) + tail.0) == Flags(letters) + tail.0;
    }
  }

  /** A new word is scanned from the character after its prefix. */
  lemma WordEntered(body: string, prefix: char, i: nat, argv: seq<string>, ostr: string)
    requires i < |argv| && argv[i] == [prefix] + body && Prefix(prefix) && body != []
    ensures Scan(Scanner("", i), argv, ostr)
            == if body[0] == '-' then ([], Scanner(body, i + 1)) else Scan(At(body, i), argv, ostr)
  {
    hide TakeLetter, Left;
    assert argv[i][1..] == body;
  }

  /** The letter that takes an argument. */
  lemma ArgScanned(letter: char, rest: string, i: nat, argv: seq<string>, ostr: string)
    requires TakesArg(ostr, letter)
    ensures Scan(At([letter] + rest, i), argv, ostr) ==
            if rest != [] then Then([Found(letter, Some(rest))], Scan(Scanner("", i + 1), argv, ostr))
            else if i + 1 < |argv| then Then([Found(letter, Some(argv[i + 1]))], Scan(Scanner("", i + 2), argv, ostr))
            else Then([Bad(letter)], Scan(Scanner("", i + 1), argv, ostr))
  {
    hide Index, Left;
    assert ([letter] + rest)[1..] == rest;
  }

  /** One readable token is scanned as it was meant. */
  lemma TokenScanned(t: Token, i: nat, argv: seq<string>, ostr: string)
    requires t.Wanted(ostr) && t.Readable()
    requires i + |t.Words()| <= |argv| && argv[i..i + |t.Words()|] == t.Words()
    ensures Scan(Scanner("", i), argv, ostr) == Then(t.Meaning(), Scan(Scanner("", i + |t.Words()|), argv, ostr))
  {
    hide Known, TakesArg, Scan, Left;
    var words := argv[i..i + |t.Words()|];
    assert argv[i] == words[0];
    match t
    case Plain(prefix, letters) =>
      WordEntered(letters, prefix, i, argv, ostr);
      FlagsScanned(letters, [], i, argv, ostr);
      assert letters + [] == letters;
    case WithArg(prefix, letters, letter, arg, attached) =>
      var rest := if attached then arg else [];
      var body := letters + ([letter] + rest);
      assert argv[i] == [prefix] + body;
      assert body[0] == t.Letters()[0];
      WordEntered(body, prefix, i, argv, ostr);
      FlagsScanned(letters, [letter] + rest, i, argv, ostr);
      assert !attached ==> argv[i + 1] == words[1];
      ArgScanned(letter, rest, i, argv, ostr);
      ThenThen(Flags(letters), [Found(letter, Some(arg))], Scan(Scanner("", i + |t.Words()|), argv, ostr));
  }

  lemma ThenThen(a: seq<Result>, b: seq<Result>, scan: (seq<Result>, Scanner))
    ensures Then(a, Then(b, scan)) == Then(a + b, scan)
  {
    assert a + (b + scan.0) == (a + b) + scan.0;
  }

  /** An unreadable token is not scanned as it was meant, unless an empty word stands where its argument is. */
  lemma TokenMisread(t: Token, more: seq<Result>, i: nat, argv: seq<string>, ostr: string)
    requires t.Wanted(ostr) && !t.Readable()
    requires i < |argv| && argv[i] == t.Words()[0]
    requires t.Letters()[0] != '-' && i + 1 < |argv| ==> argv[i + 1] != []
    ensures Scan(Scanner("", i), argv, ostr).0 != t.Meaning() + more
  {
    hide Known, TakesArg, Scan, Left;
    if t.Letters()[0] == '-' {
      var body := argv[i][1..];
      assert argv[i] == [t.prefix] + body && body[0] == '-';
      WordEntered(body, t.prefix, i, argv, ostr);
      assert t.Plain? ==> Flags(t.letters) != [];
    } else {
      var letter, letters := t.letter, t.letters;
      assert argv[i] == [t.prefix] + (letters + [letter]);
      WordEntered(letters + [letter], t.prefix, i, argv, ostr);
      FlagsScanned(letters, [letter], i, argv, ostr);
      ArgScanned(letter, [], i, argv, ostr);
      assert [letter] + [] == [letter];
      var k := |Flags(letters)|;
      assert (t.Meaning() + more)[k] == Found(letter, Some([]));
    }
  }

  /** At the words after the options the scan ends, and the operands are what is left. */
  lemma TailScanned(i: nat, argv: seq<string>, ostr: string)
    requires i <= |argv| && Tail(argv[i..])
    ensures var (results, end) := Scan(Scanner("", i), argv, ostr);
            results == [] && end.optind <= |argv| && argv[end.optind..] == Operands(argv[i..])
  {
    hide TakeLetter, Left;
    if i < |argv| {
      assert argv[i..][0] == argv[i] && argv[i..][1..] == argv[i + 1..];
    }
  }

  /** The words of the first token, and the others. */
  lemma Split(tokens: seq<Token>, tail: seq<string>, i: nat, argv: seq<string>)
    requires tokens != [] && i <= |argv| && argv[i..] == Words(tokens) + tail
    ensures var n := |tokens[0].Words()|;
            && i + n <= |argv| && argv[i..i + n] == tokens[0].Words()
            && argv[i + n..] == Words(tokens[1..]) + tail
  {
    var words := tokens[0].Words();
    Regroup(words, Words(tokens[1..]), tail);
    Cut(words, Words(tokens[1..]) + tail, i, argv);
  }

  lemma Cut(a: seq<string>, b: seq<string>, i: nat, argv: seq<string>)
    requires i <= |argv| && argv[i..] == a + b
    ensures i + |a| <= |argv| && argv[i..i + |a|] == a && argv[i + |a|..] == b
  {
    assert argv[i + |a|..] == argv[i..][|a|..] && argv[i..i + |a|] == argv[i..][..|a|];
  }

  lemma {:induction false} ReadableScanned(tokens: seq<Token>, tail: seq<string>, i: nat, argv: seq<string>,
                                           ostr: string)
    requires forall t :: t in tokens ==> t.Wanted(ostr) && t.Readable()
    requires Tail(tail) && i <= |argv| && argv[i..] == Words(tokens) + tail
    ensures var (results, end) := Scan(Scanner("", i), argv, ostr);
            results == Meanings(tokens) && end.optind <= |argv| && argv[end.optind..] == Operands(tail)
  {
    hide Scan, Left, Tail, Operands, Token.Wanted, Token.Readable;
    if tokens == [] {
      assert Words(tokens) + tail == tail;
      TailScanned(i, argv, ostr);
    } else {
      Split(tokens, tail, i, argv);
      ReadableScanned(tokens[1..], tail, i + |tokens[0].Words()|, argv, ostr);
      TokenScanned(tokens[0], i, argv, ostr);
    }
  }

  /** The scanner never goes back. */
  lemma {:induction false} OptindGrows(s: Scanner, argv: seq<string>, ostr: string)
    ensures Scan(s, argv, ostr).1.optind >= s.optind
    decreases Left(s, argv)
  {
    var (next, out) := Step(s, argv, ostr);
    StepsAreFinite(s, argv, ostr);
    ScanOne([], s, argv, ostr);
    StepGrows(s, argv, ostr);
    hide Scan, Step, Left;
    if out != Eof {
      OptindGrows(next, argv, ostr);
    }
  }

  lemma StepGrows(s: Scanner, argv: seq<string>, ostr: string)
    ensures Step(s, argv, ostr).0.optind >= s.optind
  {
    hide Known, TakesArg;
  }

  /** All options as they were meant, and exactly the operands left over. */
  predicate Undone(scan: (seq<Result>, Scanner), argv: seq<string>, tokens: seq<Token>, tail: seq<string>) {
    scan.0 == Meanings(tokens) && scan.1.optind <= |argv| && argv[scan.1.optind..] == Operands(tail)
  }

  /** A last token without its attached argument takes an empty operand for it, which is then missing. */
  lemma OperandEaten(t: Token, tail: seq<string>, i: nat, argv: seq<string>, ostr: string)
    requires t.Wanted(ostr) && !t.Readable() && t.Letters()[0] != '-'
    requires i < |argv| && argv[i] == t.Words()[0] && argv[i + 1..] == tail && tail != [] && tail[0] == []
    ensures !Undone(Scan(Scanner("", i), argv, ostr), argv, [t], tail)
  {
    hide Known, TakesArg, Scan, Left;
    var letter, letters := t.letter, t.letters;
    assert argv[i] == [t.prefix] + (letters + [letter]);
    WordEntered(letters + [letter], t.prefix, i, argv, ostr);
    FlagsScanned(letters, [letter], i, argv, ostr);
    ArgScanned(letter, [], i, argv, ostr);
    assert [letter] + [] == [letter];
    OptindGrows(Scanner("", i + 2), argv, ostr);
    assert |argv| == i + 1 + |tail|;
  }

  lemma {:induction false} UnreadableMisread(tokens: seq<Token>, tail: seq<string>, i: nat, argv: seq<string>,
                                             ostr: string)
    requires forall t :: t in tokens ==> t.Wanted(ostr)
    requires exists t :: t in tokens && !t.Readable()
    requires i <= |argv| && argv[i..] == Words(tokens) + tail
    ensures !Undone(Scan(Scanner("", i), argv, ostr), argv, tokens, tail)
  {
    hide Scan, Left, Words, Operands, Token.Wanted, Token.Readable, Token.Meaning, Token.Words;
    var n := |tokens[0].Words()|;
    Split(tokens, tail, i, argv);
    var bad :| bad in tokens && !bad.Readable();
    assert bad == tokens[0] || bad in tokens[1..];
    if tokens[0].Readable() {
      TokenScanned(tokens[0], i, argv, ostr);
      UnreadableMisread(tokens[1..], tail, i + n, argv, ostr);
      if Undone(Scan(Scanner("", i), argv, ostr), argv, tokens, tail) {
        Cancel(tokens[0].Meaning(), Scan(Scanner("", i + n), argv, ostr).0, Meanings(tokens[1..]));
      }
    } else {
      FirstMisread(tokens, tail, i, argv, ostr);
    }
  }

  lemma FirstMisread(tokens: seq<Token>, tail: seq<string>, i: nat, argv: seq<string>, ostr: string)
    requires tokens != [] && tokens[0].Wanted(ostr) && !tokens[0].Readable()
    requires i <= |argv| && argv[i..] == Words(tokens) + tail
    ensures !Undone(Scan(Scanner("", i), argv, ostr), argv, tokens, tail)
  {
    var t := tokens[0];
    UnreadableWord(t, ostr);
    FirstWords(tokens, tail, i, argv);
    hide Scan, Left, Operands, Token.Meaning, Known, TakesArg, Words, Token.Wanted, Token.Readable, Token.Words;
    if t.Letters()[0] != '-' && |tokens| == 1 && tail != [] && tail[0] == [] {
      OperandEaten(t, tail, i, argv, ostr);
      assert tokens == [t];
    } else {
      SecondWord(tokens, tail, ostr);
      TokenMisread(t, Meanings(tokens[1..]), i, argv, ostr);
    }
  }

  lemma UnreadableWord(t: Token, ostr: string)
    requires t.Wanted(ostr) && !t.Readable()
    ensures t.Letters() != [] && (t.Letters()[0] != '-' ==> |t.Words()| == 1)
  {
  }

  lemma FirstWords(tokens: seq<Token>, tail: seq<string>, i: nat, argv: seq<string>)
    requires tokens != [] && i <= |argv| && argv[i..] == Words(tokens) + tail
    ensures i < |argv| && argv[i] == tokens[0].Words()[0]
    ensures i + 1 < |argv| ==> |Words(tokens) + tail| > 1 && argv[i + 1] == (Words(tokens) + tail)[1]
    ensures |tokens| == 1 && |tokens[0].Words()| == 1 ==> argv[i + 1..] == tail
  {
    hide Token.Words;
    Split(tokens, tail, i, argv);
    var words := argv[i..];
    assert words[0] == argv[i] && (i + 1 < |argv| ==> words[1] == argv[i + 1]);
    assert argv[i..i + |tokens[0].Words()|][0] == argv[i];
    if |tokens| == 1 {
      assert Words(tokens[1..]) == [];
    }
  }

  lemma Cancel(m: seq<Result>, a: seq<Result>, b: seq<Result>)
    requires m + a == m + b
    ensures a == b
  {
    assert a == (m + a)[|m|..] && b == (m + b)[|m|..];
  }

  /** A token without its attached argument is one word, and the next one is not empty. */
  lemma SecondWord(tokens: seq<Token>, tail: seq<string>, ostr: string)
    requires tokens != [] && tokens[0].Wanted(ostr) && !tokens[0].Readable()
    requires |tokens| > 1 || tail == [] || tail[0] != [] || tokens[0].Letters()[0] == '-'
    ensures tokens[0].Letters() != []
    ensures tokens[0].Letters()[0] != '-' && |Words(tokens) + tail| > 1 ==> (Words(tokens) + tail)[1] != []
  {
    if |tokens| > 1 {
      assert Words(tokens[1..]) == tokens[1].Words() + Words(tokens[1..][1..]);
    }
  }

  /**
   * Scanning undoes rendering: with any operands behind them, the options come back as they were meant and the
   * operands are left over, if and only if every token is readable.
   */
  lemma ScanUndoesRender(program: string, tokens: seq<Token>, tail: seq<string>, ostr: string)
    requires (forall t :: t in tokens ==> t.Wanted(ostr)) && Tail(tail)
    ensures var argv := [program] + Words(tokens) + tail;
            var (results, end) := Scan(INITIAL, argv, ostr);
            (results == Meanings(tokens) && end.optind <= |argv| && argv[end.optind..] == Operands(tail))
            <==> forall t :: t in tokens ==> t.Readable()
  {
    hide Scan, Left, Token.Wanted, Token.Readable, Words, Meanings, Tail, Operands;
    var argv := [program] + Words(tokens) + tail;
    assert argv[1..] == Words(tokens) + tail;
    if forall t :: t in tokens ==> t.Readable() {
      ReadableScanned(tokens, tail, 1, argv, ostr);
    } else {
      UnreadableMisread(tokens, tail, 1, argv, ostr);
    }
  }
}
