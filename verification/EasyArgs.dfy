/** Command line parsing with registered options (libs/easy_args.c). */
module EasyArgs {
  import opened Wrappers

  datatype ArgType = Int | UInt | Flag | Text

  /** What lies in a container: what `char**`, `bool*`, `int*` and `unsigned*` point at. */
  datatype Value = IntValue(n: int) | BoolValue(b: bool) | StringValue(s: string)

  /** The conversions of the C library, with the narrowing to the container's type. */
  datatype Libc = Libc(strtol: string -> int, strtoul: string -> int)

  /** An option: its two names, its type and the address of its container. */
  datatype Entry = Entry(argShort: Option<string>, argLong: Option<string>, argType: ArgType, container: nat)

  /** The number of arguments that eargs_addArgumentInt and its siblings register. */
  function Arity(t: ArgType): nat {
    if t == Flag then 0 else 1
  }

  // ---------- what a command line means ----------

  predicate Matches(e: Entry, word: string) {
    e.argShort == Some(word) || e.argLong == Some(word)
  }

  /** The first registered option that goes by a name, |entries| if there is none. */
  function FirstMatch(entries: seq<Entry>, word: string): (k: nat)
    ensures k <= |entries| && (k < |entries| ==> Matches(entries[k], word))
    ensures forall j | 0 <= j < k :: !Matches(entries[j], word)
  {
    if entries == [] || Matches(entries[0], word) then 0
    else
      assert forall j | 1 <= j < |entries| :: entries[j] == entries[1..][j - 1];
      1 + FirstMatch(entries[1..], word)
  }

  /** A piece of a command line: an option with its arguments, or another word. */
  datatype Piece = Given(entry: Entry, name: string, arguments: seq<string>) | Leftover(word: string)

  datatype Split = Split(pieces: seq<Piece>, complete: bool)
  {
    function After(first: seq<Piece>): Split {
      Split(first + pieces, complete)
    }
  }

  function Words(p: Piece): (r: seq<string>)
    ensures r != []
  {
    match p
    case Leftover(word) => [word]
    case Given(_, name, arguments) => [name] + arguments
  }

  /** A piece as the option list reads it. */
  predicate Readable(entries: seq<Entry>, p: Piece) {
    match p
    case Leftover(word) => FirstMatch(entries, word) == |entries|
    case Given(e, name, arguments) =>
      var k := FirstMatch(entries, name);
      k < |entries| && entries[k] == e && |arguments| == Arity(e.argType)
  }

  /** A word that is an option whose argument is missing when it comes last. */
  predicate NeedsArgument(entries: seq<Entry>, word: string) {
    var k := FirstMatch(entries, word);
    k < |entries| && entries[k].argType != Flag
  }

  /** What the words at hand start with, if it is not an option without its argument. */
  function FirstPiece(entries: seq<Entry>, args: seq<string>): (r: Option<Piece>)
    requires args != []
  {
    var k := FirstMatch(entries, args[0]);
    if k == |entries| then Some(Leftover(args[0]))
    else
      var n := 1 + Arity(entries[k].argType);
      if |args| < n then None else Some(Given(entries[k], args[0], args[1..n]))
  }

  lemma FirstPieceIs(entries: seq<Entry>, argv: seq<string>, i: nat, k: nat)
    requires i < |argv| && k <= |entries|
    requires k < |entries| ==> Matches(entries[k], argv[i])
    requires forall j | 0 <= j < k :: !Matches(entries[j], argv[i])
    ensures From(argv, i) != []
    ensures FirstPiece(entries, From(argv, i)) ==
            if k == |entries| then Some(Leftover(argv[i]))
            else
              var n := Arity(entries[k].argType);
              if |argv| - i > n then Some(Given(entries[k], argv[i], argv[i + 1..i + 1 + n])) else None
  {
    var args := From(argv, i);
    assert FirstMatch(entries, args[0]) == k;
    var n := if k == |entries| then 0 else Arity(entries[k].argType);
    if |args| > n {
      assert args[1..1 + n] == argv[i + 1..i + 1 + n];
    }
  }

  lemma FirstPieceReads(entries: seq<Entry>, args: seq<string>)
    requires args != []
    ensures match FirstPiece(entries, args)
            case None => |args| == 1 && NeedsArgument(entries, args[0])
            case Some(p) => Readable(entries, p) && Words(p) <= args
  {}

  /** The words from i on. */
  function From(argv: seq<string>, i: nat): seq<string> {
    if i <= |argv| then argv[i..] else []
  }

  /** The pieces of a command line, incomplete if an option lacks its argument. */
  function SplitArgs(entries: seq<Entry>, args: seq<string>): Split
    decreases |args|
  {
    if args == [] then Split([], true)
    else
      match FirstPiece(entries, args)
      case None => Split([], false)
      case Some(p) =>
        FirstPieceReads(entries, args);
        SplitArgs(entries, args[|Words(p)|..]).After([p])
  }

  lemma SplitUnfold(entries: seq<Entry>, args: seq<string>)
    ensures SplitArgs(entries, []) == Split([], true)
    ensures args != [] ==>
              match FirstPiece(entries, args)
              case None => SplitArgs(entries, args) == Split([], false)
              case Some(p) =>
                && |Words(p)| <= |args|
                && SplitArgs(entries, args) == SplitArgs(entries, args[|Words(p)|..]).After([p])
  {}

  function Leftovers(pieces: seq<Piece>): (r: seq<string>)
    ensures |r| <= |pieces|
  {
    if pieces == [] then []
    else (if pieces[0].Leftover? then [pieces[0].word] else []) + Leftovers(pieces[1..])
  }

  predicate AllReadable(entries: seq<Entry>, pieces: seq<Piece>) {
    forall p | p in pieces :: Readable(entries, p)
  }

  function Render(pieces: seq<Piece>): seq<string> {
    if pieces == [] then [] else Words(pieces[0]) + Render(pieces[1..])
  }

  /** What an option writes: eargs_handle_int, _uint, _flag and _string. */
  function ValueOf(libc: Libc, t: ArgType, arguments: seq<string>): Value
    requires |arguments| >= Arity(t)
  {
    match t
    case Int => IntValue(libc.strtol(arguments[0]))
    case UInt => IntValue(libc.strtoul(arguments[0]))
    case Flag => BoolValue(true)
    case Text => StringValue(arguments[0])
  }

  function Written(libc: Libc, p: Piece, store: map<nat, Value>): map<nat, Value> {
    if p.Given? && |p.arguments| == Arity(p.entry.argType)
    then store[p.entry.container := ValueOf(libc, p.entry.argType, p.arguments)]
    else store
  }

  function Final(libc: Libc, pieces: seq<Piece>, store: map<nat, Value>): map<nat, Value> {
    if pieces == [] then store else Final(libc, pieces[1..], Written(libc, pieces[0], store))
  }

  // ---------- the option list ----------

  class ArgumentItem {
    const argShort: Option<string>
    const argLong: Option<string>
    const argType: ArgType
    const container: nat
    const arguments: nat
    var next: ArgumentItem?

    constructor (argShort: Option<string>, argLong: Option<string>, container: nat, arguments: nat, argType: ArgType)
      ensures this.argShort == argShort && this.argLong == argLong && this.container == container
      ensures this.arguments == arguments && this.argType == argType && next == null
    {
      this.argShort, this.argLong, this.container := argShort, argLong, container;
      this.arguments, this.argType, next := arguments, argType, null;
    }

    function AsEntry(): Entry {
      Entry(argShort, argLong, argType, container)
    }
  }

  function Entries(items: seq<ArgumentItem>): (r: seq<Entry>) {
    seq(|items|, k requires 0 <= k < |items| => items[k].AsEntry())
  }

  lemma EntriesOneMore(items: seq<ArgumentItem>, item: ArgumentItem)
    ensures Entries(items + [item]) == Entries(items) + [item.AsEntry()]
  {}

  /** The k-th item, NULL behind the last one. */
  function Nth(items: seq<ArgumentItem>, k: nat): ArgumentItem? {
    if k < |items| then items[k] else null
  }

  ghost predicate Linked(items: seq<ArgumentItem>, k: nat)
    requires k < |items|
    reads items[k]
  {
    items[k].next == Nth(items, k + 1)
  }

  /** The parser: the global `base`, and the containers its options point at. */
  class Parser {
    const libc: Libc
    var base: ArgumentItem?
    var store: map<nat, Value>
    var freed: bool                     // base dangles: eargs_clear does not reset it
    ghost var items: seq<ArgumentItem>

    ghost predicate Valid()
      reads `base, `items, items
    {
      && base == Nth(items, 0)
      && (forall k | 0 <= k < |items| :: Linked(items, k))
      && (forall j, k | 0 <= j < k < |items| :: items[j] != items[k])
      && (forall k | 0 <= k < |items| :: items[k].arguments == Arity(items[k].argType))
    }

    ghost function Options(): seq<Entry>
      reads `items
    {
      Entries(items)
    }

    constructor (libc: Libc, store: map<nat, Value>)
      ensures Valid() && Options() == [] && !freed && this.libc == libc && this.store == store
    {
      this.libc, base, this.store, freed, items := libc, null, store, false, [];
    }

    /** eargs_addArgumentElem for the typed options: the new one comes last. */
    method AddArgumentElem(argShort: Option<string>, argLong: Option<string>, container: nat, arguments: nat,
                           argType: ArgType)
      requires Valid() && !freed && arguments == Arity(argType)
      modifies this`base, this`items, if items == [] then {} else {items[|items| - 1]}
      ensures Valid() && Options() == old(Options()) + [Entry(argShort, argLong, argType, container)]
      ensures old(items) < items && |items| == |old(items)| + 1 && fresh(items[|items| - 1])
    {
      hide Entries;
      var item := new ArgumentItem(argShort, argLong, container, arguments, argType);
      assert Valid();
      if base == null {
        base := item;
      } else {
        var next := base;
        ghost var k := 0;
        while next.next != null
          invariant Valid() && 0 <= k < |items| && next == items[k]
          decreases |items| - k
        {
          assert Linked(items, k);
          next := next.next;
          k := k + 1;
        }
        assert Linked(items, k);
        next.next := item;
      }
      EntriesOneMore(items, item);
      items := items + [item];
      forall j | 0 <= j < |items| - 2
        ensures Linked(items, j)
      {
        assert old(Linked(items, j));
      }
    }

    /** eargs_parseItem on the words from i on: -1 if the first is no option, -2 if
        its argument is missing, otherwise how many further words it used. */
    method ParseItem(argv: seq<string>, i: nat) returns (used: int)
      requires Valid() && !freed && i <= |argv|
      modifies this`store
      ensures if i == |argv| then used == -1 && store == old(store)
              else
                match FirstPiece(Options(), From(argv, i))
                case None => used == -2 && store == old(store)
                case Some(p) =>
                  && used == (if p.Leftover? then -1 else |p.arguments|)
                  && store == Written(libc, p, old(store))
    {
      if |argv| - i < 1 {
        return -1;
      }
      hide From, FirstPiece, Written;
      var item := base;
      ghost var k := 0;
      while item != null
        invariant 0 <= k <= |items| && item == Nth(items, k)
        invariant forall j | 0 <= j < k :: !Matches(Options()[j], argv[i])
        invariant store == old(store)
        decreases |items| - k
      {
        if (item.argShort.Some? && argv[i] == item.argShort.value)
           || (item.argLong.Some? && argv[i] == item.argLong.value) {
          FirstPieceIs(Options(), argv, i, k);
          if |argv| - i > item.arguments {
            used := Action(item, argv, i);
            return;
          } else {
            return -2;
          }
        }
        assert Linked(items, k);
        item := item.next;
        k := k + 1;
      }
      FirstPieceIs(Options(), argv, i, k);
      return -1;
    }

    /** eargs_action and the typed handlers. */
    method Action(item: ArgumentItem, argv: seq<string>, i: nat) returns (used: int)
      requires item.arguments == Arity(item.argType) && i + item.arguments < |argv|
      modifies this`store
      ensures used == Arity(item.argType)
      ensures store == Written(libc, Given(item.AsEntry(), argv[i], argv[i + 1..i + 1 + used]), old(store))
      ensures item.argType == Int ==> store == old(store)[item.container := IntValue(libc.strtol(argv[i + 1]))]
      ensures item.argType == UInt ==> store == old(store)[item.container := IntValue(libc.strtoul(argv[i + 1]))]
      ensures item.argType == Flag ==> store == old(store)[item.container := BoolValue(true)]
      ensures item.argType == Text ==> store == old(store)[item.container := StringValue(argv[i + 1])]
    {
      match item.argType {
        case Int =>
          store := store[item.container := IntValue(libc.strtol(argv[i + 1]))];
          return 1;
        case UInt =>
          store := store[item.container := IntValue(libc.strtoul(argv[i + 1]))];
          return 1;
        case Flag =>
          store := store[item.container := BoolValue(true)];
          return 0;
        case Text =>
          store := store[item.container := StringValue(argv[i + 1])];
          return 1;
      }
    }

    /** eargs_parse: the number of leftover words, which end up in `output` in their
        order, or -2 for a missing argument. After success the option list is gone. */
    method Parse(argv: seq<string>, output: array?<Option<string>>) returns (outputc: int)
      requires Valid() && !freed && (output != null ==> |argv| <= output.Length)
      modifies this`store, this`freed, if output == null then {} else {output}
      ensures var s := SplitArgs(old(Options()), From(argv, 1));
              && outputc == (if s.complete then |Leftovers(s.pieces)| else -2)
              && store == Final(libc, s.pieces, old(store))
              && freed == (s.complete && items != [])
              && (output != null ==> Filled(output[..|argv|], Leftovers(s.pieces))
                                     && forall k | |argv| <= k < output.Length :: output[k] == old(output[k]))
    {
      hide *;
      if output != null {
        Erase(output, |argv|);
      }
      outputc := 0;
      var i := 1;
      ghost var s := SplitArgs(Options(), From(argv, 1));
      ghost var done: seq<Piece> := [];
      SplitStart(libc, s, store);
      while i < |argv|
        invariant 1 <= i && (argv != [] ==> i <= |argv|)
        invariant s == SplitArgs(Options(), From(argv, i)).After(done)
        invariant outputc == |Leftovers(done)| < i
        invariant store == Final(libc, done, old(store)) && !freed
        invariant output != null ==> Filled(output[..|argv|], Leftovers(done))
                                     && forall k | |argv| <= k < output.Length :: output[k] == old(output[k])
      {
        SplitMore(libc, Options(), argv, i, done, old(store));
        var v := ParseItem(argv, i);
        if v == -2 {
          outputc := -2;
          return;
        }
        ghost var p := FirstPiece(Options(), From(argv, i)).value;
        if v < 0 {
          if output != null {
            Put(output, |argv|, outputc, argv[i], Leftovers(done));
          }
          outputc := outputc + 1;
        } else {
          i := i + v;
        }
        done := done + [p];
        i := i + 1;
      }
      SplitEnd(Options(), argv, i, done);
      Clear();
    }

    /** memset(output, 0, argc * sizeof(char*)). */
    static method Erase(output: array<Option<string>>, n: nat)
      requires n <= output.Length
      modifies output
      ensures Filled(output[..n], []) && forall k | n <= k < output.Length :: output[k] == old(output[k])
    {
      for k := 0 to n
        invariant forall j | 0 <= j < k :: output[j] == None
        invariant forall j | n <= j < output.Length :: output[j] == old(output[j])
      {
        output[k] := None;
      }
    }

    /** output[outputc] = argv[i]. */
    static method Put(output: array<Option<string>>, argc: nat, outputc: nat, word: string, ghost before: seq<string>)
      requires argc <= output.Length && Filled(output[..argc], before) && outputc == |before| < argc
      modifies output
      ensures Filled(output[..argc], before + [word])
      ensures forall k | argc <= k < output.Length :: output[k] == old(output[k])
    {
      FilledOneMore(output[..argc], before, word);
      output[outputc] := Some(word);
      assert output[..argc] == old(output[..argc])[outputc := Some(word)];
    }

    /** eargs_clear frees every item and leaves `base` as it is. */
    method Clear()
      requires Valid() && !freed
      modifies this`freed
      ensures freed == (items != [])
    {
      freed := base != null;
    }
  }

  /** The words of `ws`, then NULL. */
  predicate Filled(output: seq<Option<string>>, ws: seq<string>) {
    |ws| <= |output|
    && forall k | 0 <= k < |output| :: output[k] == if k < |ws| then Some(ws[k]) else None
  }

  lemma FilledOneMore(output: seq<Option<string>>, ws: seq<string>, w: string)
    requires Filled(output, ws) && |ws| < |output|
    ensures Filled(output[|ws| := Some(w)], ws + [w])
  {}

  /** One more piece of the command line, or its premature end. */
  lemma SplitMore(libc: Libc, entries: seq<Entry>, argv: seq<string>, i: nat, done: seq<Piece>, store: map<nat, Value>)
    requires i < |argv|
    ensures var s := SplitArgs(entries, From(argv, i)).After(done);
            From(argv, i) != [] &&
            match FirstPiece(entries, From(argv, i))
            case None => s == Split(done, false)
            case Some(p) =>
              && i < i + |Words(p)| <= |argv|
              && |Words(p)| == 1 + (if p.Leftover? then 0 else |p.arguments|)
              && s == SplitArgs(entries, From(argv, i + |Words(p)|)).After(done + [p])
              && Final(libc, done + [p], store) == Written(libc, p, Final(libc, done, store))
              && Leftovers(done + [p]) == if p.Leftover? then Leftovers(done) + [argv[i]] else Leftovers(done)
  {
    var args := From(argv, i);
    SplitUnfold(entries, args);
    match FirstPiece(entries, args)
    case None =>
      assert done + [] == done;
    case Some(p) =>
      assert args[|Words(p)|..] == From(argv, i + |Words(p)|);
      AfterAfter(SplitArgs(entries, args[|Words(p)|..]), done, [p]);
      FinalOneMore(libc, done, p, store);
      LeftoversOneMore(done, p);
  }

  lemma SplitStart(libc: Libc, s: Split, store: map<nat, Value>)
    ensures s.After([]) == s && Leftovers([]) == [] && Final(libc, [], store) == store
  {}

  lemma SplitEnd(entries: seq<Entry>, argv: seq<string>, i: nat, done: seq<Piece>)
    requires i >= |argv|
    ensures SplitArgs(entries, From(argv, i)).After(done) == Split(done, true)
  {}

  lemma AfterAfter(rest: Split, a: seq<Piece>, b: seq<Piece>)
    ensures rest.After(b).After(a) == rest.After(a + b)
  {}

  lemma {:induction false} FinalOneMore(libc: Libc, pieces: seq<Piece>, p: Piece, store: map<nat, Value>)
    ensures Final(libc, pieces + [p], store) == Written(libc, p, Final(libc, pieces, store))
  {
    if pieces != [] {
      FinalOneMore(libc, pieces[1..], p, Written(libc, pieces[0], store));
      assert (pieces + [p])[1..] == pieces[1..] + [p];
    }
  }

  lemma {:induction false} LeftoversOneMore(pieces: seq<Piece>, p: Piece)
    ensures Leftovers(pieces + [p]) == Leftovers(pieces) + if p.Leftover? then [p.word] else []
  {
    if pieces != [] {
      LeftoversOneMore(pieces[1..], p);
      assert (pieces + [p])[1..] == pieces[1..] + [p];
    }
  }

  /** The leftover words of a command line: those of its parts, in their order; the words
      of an option are none of them. */
  lemma {:induction false} LeftoversInOrder(a: seq<Piece>, b: seq<Piece>, p: Piece)
    ensures Leftovers(a + [p] + b) == Leftovers(a) + (if p.Leftover? then [p.word] else []) + Leftovers(b)
    decreases |b|
  {
    LeftoversOneMore(a, p);
    if b == [] {
      assert a + [p] + b == a + [p];
    } else {
      var k := |b| - 1;
      assert a + [p] + b == (a + [p] + b[..k]) + [b[k]];
      assert b == b[..k] + [b[k]];
      LeftoversInOrder(a, b[..k], p);
      LeftoversOneMore(a + [p] + b[..k], b[k]);
      LeftoversOneMore(b[..k], b[k]);
    }
  }

  // ---------- splitting and rendering ----------

  /** Every word of the command line belongs to exactly one piece, in its order, and
      each piece is what the first registered option of that name makes of it; only
      a last word can be left, an option without its argument. */
  predicate Partition(entries: seq<Entry>, args: seq<string>, s: Split) {
    && AllReadable(entries, s.pieces)
    && Render(s.pieces) <= args
    && (if s.complete then Render(s.pieces) == args
        else |args| == |Render(s.pieces)| + 1 && NeedsArgument(entries, args[|args| - 1]))
  }

  lemma PartitionMore(entries: seq<Entry>, args: seq<string>, p: Piece, rest: Split)
    requires Readable(entries, p) && Words(p) <= args && Partition(entries, args[|Words(p)|..], rest)
    ensures Partition(entries, args, rest.After([p]))
  {
    hide Readable, Words, NeedsArgument;
    var s := rest.After([p]);
    assert s.pieces[0] == p && s.pieces[1..] == rest.pieces;
    assert args == Words(p) + args[|Words(p)|..];
  }

  lemma {:induction false} SplitIsPartition(entries: seq<Entry>, args: seq<string>)
    ensures Partition(entries, args, SplitArgs(entries, args))
    decreases |args|
  {
    hide FirstPiece, Readable, NeedsArgument, Words;
    if args != [] {
      FirstPieceReads(entries, args);
      var first := FirstPiece(entries, args);
      if first.Some? {
        SplitIsPartition(entries, args[|Words(first.value)|..]);
        PartitionMore(entries, args, first.value, SplitArgs(entries, args[|Words(first.value)|..]));
      }
    }
  }

  /** Reading back: pieces in front of any other words are recognised one by one. */
  lemma {:induction false} SplitOfRendered(entries: seq<Entry>, pieces: seq<Piece>, tail: seq<string>)
    requires AllReadable(entries, pieces)
    ensures SplitArgs(entries, Render(pieces) + tail) == SplitArgs(entries, tail).After(pieces)
  {
    if pieces == [] {
      assert Render(pieces) + tail == tail;
      assert [] + SplitArgs(entries, tail).pieces == SplitArgs(entries, tail).pieces;
    } else {
      var p, more := pieces[0], pieces[1..];
      assert Readable(entries, p) && AllReadable(entries, more);
      var args, rest := Render(pieces) + tail, Render(more) + tail;
      assert args == Words(p) + rest && args[|Words(p)|..] == rest by {
        hide Words;
      }
      hide SplitArgs, FirstPiece, Readable, Words, Render;
      SplitOfRendered(entries, more, tail);
      PieceReadBack(entries, p, rest);
      SplitUnfold(entries, args);
      AfterAfter(SplitArgs(entries, tail), [p], more);
      assert [p] + more == pieces;
    }
  }

  lemma PieceReadBack(entries: seq<Entry>, p: Piece, tail: seq<string>)
    requires Readable(entries, p)
    ensures FirstPiece(entries, Words(p) + tail) == Some(p)
  {}

  /** Parsing a rendered command line gives its options and leftovers back; it fails
      exactly when an option that takes an argument is put last without one. */
  lemma RoundTrip(entries: seq<Entry>, pieces: seq<Piece>, word: string)
    requires AllReadable(entries, pieces)
    ensures SplitArgs(entries, Render(pieces)) == Split(pieces, true)
    ensures SplitArgs(entries, Render(pieces) + [word]).complete <==> !NeedsArgument(entries, word)
  {
    SplitOfRendered(entries, pieces, []);
    assert Render(pieces) + [] == Render(pieces) && pieces + [] == pieces;
    SplitOfRendered(entries, pieces, [word]);
    assert [word][1..] == [];
    assert SplitArgs(entries, []) == Split([], true);
  }

  predicate Writes(p: Piece, container: nat) {
    p.Given? && p.entry.container == container
  }

  /** A container holds what the last option that points at it wrote, or what it
      held before if there is none. */
  lemma {:induction false} LastValueStays(libc: Libc, entries: seq<Entry>, pieces: seq<Piece>, store: map<nat, Value>,
                                          container: nat, k: nat)
    requires AllReadable(entries, pieces) && k <= |pieces|
    requires forall j | k <= j < |pieces| :: !Writes(pieces[j], container)
    requires k > 0 ==> Writes(pieces[k - 1], container)
    ensures var final := Final(libc, pieces, store);
            if k == 0 then
              && (container in final <==> container in store)
              && (container in store ==> final[container] == store[container])
            else
              && Readable(entries, pieces[k - 1])
              && container in final
              && var words := pieces[k - 1].arguments;
                 match pieces[k - 1].entry.argType
                 case Int => |words| == 1 && final[container] == IntValue(libc.strtol(words[0]))
                 case UInt => |words| == 1 && final[container] == IntValue(libc.strtoul(words[0]))
                 case Flag => words == [] && final[container] == BoolValue(true)
                 case Text => |words| == 1 && final[container] == StringValue(words[0])
  {
    if pieces != [] {
      var p, more := pieces[0], pieces[1..];
      assert Readable(entries, p) && AllReadable(entries, more);
      assert k > 1 ==> more[k - 2] == pieces[k - 1];
      LastValueStays(libc, entries, more, Written(libc, p, store), container, if k == 0 then 0 else k - 1);
    }
  }
}
