/**
 * NPCFactory (src/npc/npc_factory.cpp): creating an NPC from its type string,
 * and the line format `name type x y` used to load and save a population.
 *
 * Files are not modelled: loading reads a sequence of lines (what getline
 * yields) and saving produces one. Extraction with `>>` is modelled on
 * characters: a word is a maximal run of non-whitespace, an int is an optional
 * sign and a maximal run of decimal digits whose value must fit in 32 bits.
 */
module Factory {
  import opened Wrappers
  import opened Geometry
  import opened Npcs

  /** The text of the invalid_argument create throws, before the offending type string. */
  const UnknownType: string := "Неизвестный тип NPC: "

  /** The registered creators, in registration order. */
  const Creators: seq<(string, Kind)> := [(OrcType, Orc), (DruidType, Druid), (SquirrelType, Squirrel)]

  /** The loop of create: the first creator whose type string equals `typeName`. */
  function Lookup(creators: seq<(string, Kind)>, typeName: string): Option<Kind>
  {
    if creators == [] then None
    else if creators[0].0 == typeName then Some(creators[0].1)
    else Lookup(creators[1..], typeName)
  }

  /** Lookup finds a registered entry for `typeName`, and finds nothing only when there is none. */
  lemma {:induction false} LookupFinds(creators: seq<(string, Kind)>, typeName: string)
    ensures Lookup(creators, typeName).Some? ==> (typeName, Lookup(creators, typeName).value) in creators
    ensures Lookup(creators, typeName).None? ==> forall entry :: entry in creators ==> entry.0 != typeName
  {
    if creators != [] && creators[0].0 != typeName {
      LookupFinds(creators[1..], typeName);
    }
  }

  /**
   * create: a registered type string gives a living NPC of that kind with the
   * given name and position (any name, any coordinates); any other string is
   * rejected with invalid_argument.
   */
  function Create(typeName: string, name: string, position: Point): Result<NpcView, string>
  {
    match Lookup(Creators, typeName)
    case Some(kind) => Success(NpcView(name, kind, position, true))
    case None => Failure(UnknownType + typeName)
  }

  /** What create promises: exactly the three type strings succeed, each giving its own kind. */
  lemma CreateSucceedsExactlyForRegisteredTypes(typeName: string, name: string, position: Point)
    ensures Create(typeName, name, position).Success? <==>
      typeName == OrcType || typeName == DruidType || typeName == SquirrelType
    ensures Create(typeName, name, position).Success? ==>
      var v := Create(typeName, name, position).value;
      v.name == name && v.position == position && v.alive && TypeName(v.kind) == typeName
    ensures Create(typeName, name, position).Failure? ==>
      Create(typeName, name, position).error == UnknownType + typeName
  {
    LookupFinds(Creators, typeName);
    assert (OrcType, Orc) in Creators && (DruidType, Druid) in Creators && (SquirrelType, Squirrel) in Creators;
  }

  /** Creating from the type string of a kind gives an NPC of that kind. */
  lemma CreateOfTypeName(k: Kind, name: string, position: Point)
    ensures Create(TypeName(k), name, position) == Success(NpcView(name, k, position, true))
  {
    CreateSucceedsExactlyForRegisteredTypes(TypeName(k), name, position);
    var v := Create(TypeName(k), name, position).value;
    assert TypeName(v.kind) == TypeName(k);
  }

  // ---------------------------------------------------------------------
  // Character-level extraction, as `iss >> word` and `iss >> int` do it.

  /** isspace in the C locale: blank, tab, newline, vertical tab, form feed, carriage return. */
  predicate IsSpace(c: char)
  {
    c == ' ' || '\t' <= c <= '\r'
  }

  predicate IsDigit(c: char)
  {
    '0' <= c <= '9'
  }

  /** Length of the maximal leading run of non-whitespace. */
  function WordLength(s: string): (n: nat)
    ensures n <= |s|
  {
    if s == [] || IsSpace(s[0]) then 0 else 1 + WordLength(s[1..])
  }

  /** Length of the maximal leading run of decimal digits. */
  function DigitRunLength(s: string): (n: nat)
    ensures n <= |s|
  {
    if s == [] || !IsDigit(s[0]) then 0 else 1 + DigitRunLength(s[1..])
  }

  /** WordLength measures exactly the leading word: no blank inside, a blank or the end after it. */
  lemma {:induction false} WordLengthIsMaximal(s: string)
    ensures forall i :: 0 <= i < WordLength(s) ==> !IsSpace(s[i])
    ensures WordLength(s) == |s| || IsSpace(s[WordLength(s)])
  {
    if s != [] && !IsSpace(s[0]) {
      WordLengthIsMaximal(s[1..]);
    }
  }

  /** DigitRunLength measures exactly the leading digits: digits inside, a non-digit or the end after them. */
  lemma {:induction false} DigitRunIsMaximal(s: string)
    ensures forall i :: 0 <= i < DigitRunLength(s) ==> IsDigit(s[i])
    ensures DigitRunLength(s) == |s| || !IsDigit(s[DigitRunLength(s)])
  {
    if s != [] && IsDigit(s[0]) {
      DigitRunIsMaximal(s[1..]);
    }
  }

  function DigitValue(c: char): nat
    requires IsDigit(c)
  {
    (c as int) - ('0' as int)
  }

  /** The value of a string of decimal digits, most significant first. */
  function DigitsValue(ds: string): nat
    requires forall i :: 0 <= i < |ds| ==> IsDigit(ds[i])
  {
    if ds == [] then 0
    else DigitsValue(ds[..|ds| - 1]) * 10 + DigitValue(ds[|ds| - 1])
  }

  /** `iss >> word`: skip whitespace, then take a non-empty run of non-whitespace. */
  function ReadWord(s: string): (r: Option<(string, string)>)
    ensures r.Some? ==> r.value.0 != [] && |r.value.1| < |s|
  {
    if s != [] && IsSpace(s[0]) then ReadWord(s[1..])
    else
      var n := WordLength(s);
      if n == 0 then None else Some((s[..n], s[n..]))
  }

  /**
   * `iss >> int`: skip whitespace, an optional sign, at least one digit; the
   * value must fit in an int, or the extraction fails.
   */
  function ReadInt(s: string): Option<(Int32, string)>
  {
    if s != [] && IsSpace(s[0]) then ReadInt(s[1..]) else ReadSigned(s)
  }

  /** The part of `>> int` after the whitespace: an optional sign, then the digits. */
  function ReadSigned(t: string): Option<(Int32, string)>
  {
    if t != [] && t[0] == '-' then ReadMagnitude(t[1..], true)
    else if t != [] && t[0] == '+' then ReadMagnitude(t[1..], false)
    else ReadMagnitude(t, false)
  }

  /** At least one digit, and the signed value must fit in an int. */
  function ReadMagnitude(u: string, negative: bool): (r: Option<(Int32, string)>)
    ensures r.Some? ==> |r.value.1| < |u|
  {
    var n := DigitRunLength(u);
    DigitRunIsMaximal(u);
    if n == 0 then None
    else
      var magnitude: int := DigitsValue(u[..n]);
      var value := if negative then -magnitude else magnitude;
      if -0x8000_0000 <= value < 0x8000_0000 then Some((value as Int32, u[n..])) else None
  }

  /** The two kinds of `>>` extraction a record line uses. */
  datatype FieldKind = WordField | IntField

  /** One extracted field. */
  datatype Field = Word(text: string) | Number(value: Int32)

  /** One `>>` extraction of the given kind, and what is left of the line after it. */
  function ReadField(s: string, kind: FieldKind): (r: Option<(Field, string)>)
    ensures r.Some? ==> (r.value.0.Word? <==> kind == WordField)
  {
    match kind
    case WordField => (match ReadWord(s) case Some((w, rest)) => Some((Word(w), rest)) case None => None)
    case IntField => (match ReadInt(s) case Some((n, rest)) => Some((Number(n), rest)) case None => None)
  }

  /**
   * A chain of `>>` extractions: each starts where the previous one stopped,
   * and the first failure fails the whole chain; what follows the last field
   * is not read.
   */
  function ReadFields(s: string, kinds: seq<FieldKind>): (r: Option<seq<Field>>)
    ensures r.Some? ==> |r.value| == |kinds|
    decreases kinds
  {
    if kinds == [] then Some([])
    else
      match ReadField(s, kinds[0])
      case None => None
      case Some((f, rest)) =>
        match ReadFields(rest, kinds[1..])
        case None => None
        case Some(fs) => Some([f] + fs)
  }

  /** `iss >> name >> type >> x >> y`. */
  const RecordFields: seq<FieldKind> := [WordField, WordField, IntField, IntField]

  /** The four fields of one record line. */
  datatype Record = Record(name: string, typeName: string, x: Int32, y: Int32)

  /**
   * The record of a line, if all four extractions succeed. (The field kinds
   * always match RecordFields; the last branch only makes that explicit.)
   */
  function ParseLine(line: string): Option<Record>
  {
    match ReadFields(line, RecordFields)
    case None => None
    case Some(fs) =>
      if fs[0].Word? && fs[1].Word? && fs[2].Number? && fs[3].Number? then
        Some(Record(fs[0].text, fs[1].text, fs[2].value, fs[3].value))
      else None
  }

  /** One line of load_from_file: a record whose type is registered gives a living NPC; anything else is skipped. */
  function LoadLine(line: string): (r: Option<NpcView>)
    ensures r.Some? ==> r.value.alive
  {
    match ParseLine(line)
    case None => None
    case Some(rec) =>
      match Create(rec.typeName, rec.name, Point(rec.x, rec.y))
      case Success(v) => Some(v)
      case Failure(_) => None
  }

  /** What load_from_file yields for a whole file: the loadable lines, in file order. */
  function Loaded(lines: seq<string>): (r: seq<NpcView>)
    ensures |r| <= |lines|
  {
    Collect(lines, LoadLine)
  }

  /** The values `f` yields on the elements of `xs`, in order, skipping those it rejects. */
  function Collect<X, Y>(xs: seq<X>, f: X -> Option<Y>): (r: seq<Y>)
    ensures |r| <= |xs|
  {
    if xs == [] then []
    else (match f(xs[0]) case Some(y) => [y] case None => []) + Collect(xs[1..], f)
  }

  /** Collect over the first `n` elements, peeling the last one off first: the order a loop builds it in. */
  function CollectPrefix<X, Y>(xs: seq<X>, n: nat, f: X -> Option<Y>): seq<Y>
    requires n <= |xs|
  {
    if n == 0 then []
    else CollectPrefix(xs, n - 1, f) + match f(xs[n - 1]) case Some(y) => [y] case None => []
  }

  /** Decimal text of an int as `<<` writes it: a minus sign for negatives, no leading zeros. */
  function ShowNat(n: nat): (s: string)
    ensures s != [] && forall i :: 0 <= i < |s| ==> IsDigit(s[i])
  {
    var d := ['0' + ((n % 10) as char)];
    if n < 10 then d else ShowNat(n / 10) + d
  }

  function Show(n: int): string
  {
    if n < 0 then "-" + ShowNat(-n) else ShowNat(n)
  }

  /** The line save_to_file writes for one NPC. */
  function SaveLine(v: NpcView): string
  {
    v.name + (" " + (TypeName(v.kind) + (" " + (Show(v.position.x as int) + (" " + Show(v.position.y as int))))))
  }

  /** save_to_file writes one line per living NPC, in list order; dead NPCs are omitted. */
  function Saved(vs: seq<NpcView>): (lines: seq<string>)
    ensures |lines| <= |vs|
  {
    Collect(vs, SavedLine)
  }

  /** The line save_to_file writes for one NPC: none for a dead one. */
  function SavedLine(v: NpcView): Option<string>
  {
    if v.alive then Some(SaveLine(v)) else None
  }

  // ---------------------------------------------------------------------
  // Loading and saving objects: the loops of load_from_file and save_to_file.

  /**
   * One iteration of load_from_file, on line `i`: parse it and append the
   * created NPC, or skip the line.
   */
  method LoadLineAt(lines: seq<string>, i: nat, npcs: seq<Npc>) returns (npcs': seq<Npc>)
    requires i < |lines|
    requires Views(npcs) == CollectPrefix(lines, i, LoadLine)
    requires Distinct(npcs)
    ensures Views(npcs') == CollectPrefix(lines, i + 1, LoadLine)
    ensures Distinct(npcs')
    ensures forall n :: n in npcs' ==> n in npcs || fresh(n)
  {
    npcs' := npcs;
    var parsed := ParseLine(lines[i]);
    if parsed.Some? {
      var rec := parsed.value;
      var created := Create(rec.typeName, rec.name, Point(rec.x, rec.y));
      if created.Success? {
        var npc := new Npc(created.value.name, created.value.kind, created.value.position);
        ViewsAppend(npcs, npc);
        npcs' := npcs + [npc];
      }
    }
  }

  /** load_from_file: a fresh, alive NPC for each loadable line, in file order. */
  method LoadFromLines(lines: seq<string>) returns (npcs: seq<Npc>)
    ensures Views(npcs) == Loaded(lines)
    ensures Distinct(npcs)
    ensures forall n :: n in npcs ==> fresh(n)
  {
    npcs := [];
    var i := 0;
    while i < |lines|
      invariant 0 <= i <= |lines|
      invariant Views(npcs) == CollectPrefix(lines, i, LoadLine)
      invariant Distinct(npcs)
      invariant forall n :: n in npcs ==> fresh(n)
    {
      npcs := LoadLineAt(lines, i, npcs);
      i := i + 1;
    }
    CollectPrefixIsCollect(lines, i, LoadLine);
    assert lines[..i] == lines;
  }

  /** One pass of save_to_file's loop: the line of the i-th NPC, if it is alive. */
  method SaveLineAt(vs: seq<NpcView>, i: nat, lines: seq<string>) returns (lines': seq<string>)
    requires i < |vs|
    requires lines == CollectPrefix(vs, i, SavedLine)
    ensures lines' == CollectPrefix(vs, i + 1, SavedLine)
  {
    lines' := lines;
    var line := SavedLine(vs[i]);
    if line.Some? {
      lines' := lines + [line.value];
    }
  }

  /** save_to_file: the lines written for a list of NPCs. */
  method SaveToLines(npcs: seq<Npc>) returns (lines: seq<string>)
    ensures lines == Saved(Views(npcs))
  {
    var vs := Views(npcs);
    lines := [];
    var i := 0;
    while i < |vs|
      invariant 0 <= i <= |vs|
      invariant lines == CollectPrefix(vs, i, SavedLine)
    {
      lines := SaveLineAt(vs, i, lines);
      i := i + 1;
    }
    CollectPrefixIsCollect(vs, i, SavedLine);
    assert vs[..i] == vs;
  }

  // ---------------------------------------------------------------------
  // Properties of the format.

  lemma {:induction false} CollectAppend<X, Y>(a: seq<X>, b: seq<X>, f: X -> Option<Y>)
    ensures Collect(a + b, f) == Collect(a, f) + Collect(b, f)
  {
    if a == [] {
      assert a + b == b;
    } else {
      var ab := a + b;
      assert ab[0] == a[0];
      assert ab[1..] == a[1..] + b;
      var head := match f(a[0]) case Some(y) => [y] case None => [];
      assert Collect(ab, f) == head + Collect(a[1..] + b, f);
      CollectAppend(a[1..], b, f);
      assert head + (Collect(a[1..], f) + Collect(b, f)) == (head + Collect(a[1..], f)) + Collect(b, f);
    }
  }

  lemma CollectSnoc<X, Y>(xs: seq<X>, x: X, f: X -> Option<Y>)
    ensures Collect(xs + [x], f) == Collect(xs, f) + match f(x) case Some(y) => [y] case None => []
  {
    CollectAppend(xs, [x], f);
    assert [x][1..] == [];
  }

  lemma {:induction false} CollectPrefixIsCollect<X, Y>(xs: seq<X>, n: nat, f: X -> Option<Y>)
    requires n <= |xs|
    ensures CollectPrefix(xs, n, f) == Collect(xs[..n], f)
  {
    if n > 0 {
      CollectPrefixIsCollect(xs, n - 1, f);
      assert xs[..n] == xs[..n - 1] + [xs[n - 1]];
      CollectSnoc(xs[..n - 1], xs[n - 1], f);
    }
  }

  lemma LoadedAppend(a: seq<string>, b: seq<string>)
    ensures Loaded(a + b) == Loaded(a) + Loaded(b)
  {
    CollectAppend(a, b, LoadLine);
  }

  /** Everything load_from_file returns is alive. */
  lemma {:induction false} LoadedAllAlive(lines: seq<string>)
    ensures forall v :: v in Loaded(lines) ==> v.alive
  {
    if lines != [] {
      LoadedAllAlive(lines[1..]);
    }
  }

  /** A name that survives a save: non-empty and free of whitespace. */
  predicate WellFormedName(name: string)
  {
    name != [] && forall c :: c in name ==> !IsSpace(c)
  }

  lemma {:induction false} WordThenSpace(w: string, rest: string)
    requires WellFormedName(w)
    ensures ReadWord(w + (" " + rest)) == Some((w, " " + rest))
  {
    var s := w + (" " + rest);
    assert s[0] == w[0] && w[0] in w;
    assert !IsSpace(s[0]);
    WordLengthOfWord(w, " " + rest);
    assert s[..|w|] == w;
    assert s[|w|..] == " " + rest;
  }

  /**
   * A leading whitespace character of any kind (blank, tab, newline, vertical
   * tab, form feed, carriage return) does not change what `>>` reads.
   */
  lemma AnySpaceIsSkipped(c: char, s: string)
    requires IsSpace(c)
    ensures ReadWord([c] + s) == ReadWord(s)
    ensures ReadInt([c] + s) == ReadInt(s)
  {
    assert ([c] + s)[1..] == s;
  }

  /** A leading blank, the separator save writes, does not change what `>>` reads. */
  lemma BlankIsSkipped(s: string)
    ensures ReadWord(" " + s) == ReadWord(s)
    ensures ReadInt(" " + s) == ReadInt(s)
  {
    AnySpaceIsSkipped(' ', s);
  }

  lemma {:induction false} WordLengthOfWord(w: string, rest: string)
    requires forall c :: c in w ==> !IsSpace(c)
    requires rest == [] || IsSpace(rest[0])
    ensures WordLength(w + rest) == |w|
    decreases |w|
  {
    if w == [] {
      assert w + rest == rest;
    } else {
      assert w[0] in w;
      assert (w + rest)[1..] == w[1..] + rest;
      assert forall c :: c in w[1..] ==> c in w;
      WordLengthOfWord(w[1..], rest);
    }
  }

  lemma {:induction false} DigitRunOfDigits(ds: string, rest: string)
    requires forall i :: 0 <= i < |ds| ==> IsDigit(ds[i])
    requires rest == [] || !IsDigit(rest[0])
    ensures DigitRunLength(ds + rest) == |ds|
    decreases |ds|
  {
    if ds == [] {
      assert ds + rest == rest;
    } else {
      assert (ds + rest)[1..] == ds[1..] + rest;
      DigitRunOfDigits(ds[1..], rest);
    }
  }

  /** Reading back the decimal text of a natural number gives the number. */
  lemma {:induction false} ShowNatValue(n: nat)
    ensures DigitsValue(ShowNat(n)) == n
  {
    var d := ['0' + ((n % 10) as char)];
    if n >= 10 {
      var s := ShowNat(n / 10) + d;
      assert s[..|s| - 1] == ShowNat(n / 10);
      ShowNatValue(n / 10);
    }
  }

  lemma {:induction false} MagnitudeOfShown(m: nat, negative: bool, rest: string)
    requires rest == [] || rest[0] == ' '
    requires -0x8000_0000 <= (if negative then -(m as int) else m) < 0x8000_0000
    ensures ReadMagnitude(ShowNat(m) + rest, negative) == Some(((if negative then -(m as int) else m) as Int32, rest))
  {
    var ds := ShowNat(m);
    var u := ds + rest;
    DigitRunOfDigits(ds, rest);
    assert u[..|ds|] == ds;
    assert u[|ds|..] == rest;
    ShowNatValue(m);
  }

  /** Reading back the sign and digits of a written int gives the int. */
  lemma SignedOfShown(x: Int32, rest: string)
    requires rest == [] || rest[0] == ' '
    ensures ReadSigned(Show(x as int) + rest) == Some((x, rest))
  {
    if x < 0 {
      var u := ShowNat(-(x as int)) + rest;
      assert Show(x as int) + rest == "-" + u;
      assert ("-" + u)[1..] == u;
      MagnitudeOfShown(-(x as int), true, rest);
    } else {
      var ds := ShowNat(x as int);
      assert (ds + rest)[0] == ds[0];
      MagnitudeOfShown(x as int, false, rest);
    }
  }

  /** A written int starts with a minus sign or a digit, never with whitespace. */
  lemma ShowStartsWithSignOrDigit(n: int, rest: string)
    ensures ReadInt(Show(n) + rest) == ReadSigned(Show(n) + rest)
  {
    var t := Show(n) + rest;
    if n < 0 {
      assert t[0] == '-';
    } else {
      assert t[0] == ShowNat(n)[0];
    }
  }

  /** Reading back a written int, followed by the end of the line or a blank, gives the int. */
  lemma IntThenRest(x: Int32, rest: string)
    requires rest == [] || rest[0] == ' '
    ensures ReadInt(" " + (Show(x as int) + rest)) == Some((x, rest))
  {
    BlankIsSkipped(Show(x as int) + rest);
    ShowStartsWithSignOrDigit(x as int, rest);
    SignedOfShown(x, rest);
  }

  lemma TypeNameIsWord(k: Kind)
    ensures WellFormedName(TypeName(k))
  {
    assert forall c :: c in OrcType ==> !IsSpace(c);
    assert forall c :: c in DruidType ==> !IsSpace(c);
    assert forall c :: c in SquirrelType ==> !IsSpace(c);
  }

  /** A chain of extractions succeeds when its first one does and the rest succeed on what remains. */
  lemma ReadFieldsStep(s: string, k: FieldKind, ks: seq<FieldKind>, f: Field, rest: string, fs: seq<Field>)
    requires ReadField(s, k) == Some((f, rest))
    requires ReadFields(rest, ks) == Some(fs)
    ensures ReadFields(s, [k] + ks) == Some([f] + fs)
  {
    assert ([k] + ks)[0] == k;
    assert ([k] + ks)[1..] == ks;
  }

  /** The two coordinates of a written line read back as themselves. */
  lemma CoordinatesReadBack(x: Int32, y: Int32)
    ensures ReadFields(" " + (Show(x as int) + (" " + Show(y as int))), [IntField, IntField]) == Some([Number(x), Number(y)])
  {
    var r3 := " " + Show(y as int);
    IntThenRest(x, r3);
    IntThenRest(y, []);
    assert Show(y as int) + [] == Show(y as int);
    assert ReadFields([], []) == Some([]);
    ReadFieldsStep(r3, IntField, [], Number(y), [], []);
    assert [IntField] + [] == [IntField] && [Number(y)] + [] == [Number(y)];
    ReadFieldsStep(" " + (Show(x as int) + r3), IntField, [IntField], Number(x), r3, [Number(y)]);
    assert [IntField] + [IntField] == [IntField, IntField];
    assert [Number(x)] + [Number(y)] == [Number(x), Number(y)];
  }

  /** A word followed by two written coordinates reads back as itself and the two coordinates. */
  lemma WordAndCoordinatesReadBack(t: string, x: Int32, y: Int32)
    requires WellFormedName(t)
    ensures ReadFields(" " + (t + (" " + (Show(x as int) + (" " + Show(y as int))))), [WordField, IntField, IntField]) ==
      Some([Word(t), Number(x), Number(y)])
  {
    var r2 := " " + (Show(x as int) + (" " + Show(y as int)));
    CoordinatesReadBack(x, y);
    BlankIsSkipped(t + r2);
    WordThenSpace(t, Show(x as int) + (" " + Show(y as int)));
    ReadFieldsStep(" " + (t + r2), WordField, [IntField, IntField], Word(t), r2, [Number(x), Number(y)]);
    assert [WordField] + [IntField, IntField] == [WordField, IntField, IntField];
    assert [Word(t)] + [Number(x), Number(y)] == [Word(t), Number(x), Number(y)];
  }

  /** A line of two words and two ints, as save writes it, reads back as its four fields. */
  lemma LineFieldsReadBack(name: string, t: string, x: Int32, y: Int32)
    requires WellFormedName(name) && WellFormedName(t)
    ensures ReadFields(name + (" " + (t + (" " + (Show(x as int) + (" " + Show(y as int)))))), RecordFields) ==
      Some([Word(name), Word(t), Number(x), Number(y)])
  {
    WordAndCoordinatesReadBack(t, x, y);
    NameThenFields(name, t + (" " + (Show(x as int) + (" " + Show(y as int)))), Word(t), Number(x), Number(y));
  }

  /** A name, a blank and the three fields after it read back as a whole record line. */
  lemma NameThenFields(name: string, rest: string, f1: Field, f2: Field, f3: Field)
    requires WellFormedName(name)
    requires ReadFields(" " + rest, [WordField, IntField, IntField]) == Some([f1, f2, f3])
    ensures ReadFields(name + (" " + rest), RecordFields) == Some([Word(name), f1, f2, f3])
  {
    WordThenFields(name, rest, [WordField, IntField, IntField], [f1, f2, f3]);
    PrependToThree(WordField, WordField, IntField, IntField);
    PrependToThree(Word(name), f1, f2, f3);
  }

  lemma PrependToThree<T>(a: T, b: T, c: T, d: T)
    ensures [a] + [b, c, d] == [a, b, c, d]
  {
  }

  /** A word, a blank and fields that read back give the word followed by those fields. */
  lemma WordThenFields(w: string, rest: string, ks: seq<FieldKind>, fs: seq<Field>)
    requires WellFormedName(w)
    requires ReadFields(" " + rest, ks) == Some(fs)
    ensures ReadFields(w + (" " + rest), [WordField] + ks) == Some([Word(w)] + fs)
  {
    WordThenSpace(w, rest);
    ReadFieldsStep(w + (" " + rest), WordField, ks, Word(w), " " + rest, fs);
  }

  /** The four fields of a written line read back as the NPC's name, type string and coordinates. */
  lemma FieldsReadBack(v: NpcView)
    requires WellFormedName(v.name)
    ensures ReadFields(SaveLine(v), RecordFields) ==
      Some([Word(v.name), Word(TypeName(v.kind)), Number(v.position.x), Number(v.position.y)])
  {
    TypeNameIsWord(v.kind);
    LineFieldsReadBack(v.name, TypeName(v.kind), v.position.x, v.position.y);
  }

  /** A chain of extractions fails when its first one succeeds and the rest fail on what remains. */
  lemma ReadFieldsFailStep(s: string, k: FieldKind, ks: seq<FieldKind>, f: Field, rest: string)
    requires ReadField(s, k) == Some((f, rest))
    requires ReadFields(rest, ks) == None
    ensures ReadFields(s, [k] + ks) == None
  {
    assert ([k] + ks)[0] == k;
    assert ([k] + ks)[1..] == ks;
  }

  /** At the end of the line there is nothing left to extract. */
  lemma EndOfLineReadsNothing()
    ensures ReadWord([]) == None && ReadInt([]) == None
    ensures ReadFields([], [IntField]) == None && ReadFields([], [IntField, IntField]) == None
  {
  }

  /** A line of a name, a type and one int lacks the fourth field and loads nothing. */
  lemma ShortLineIsSkipped(name: string, t: string, x: Int32)
    requires WellFormedName(name) && WellFormedName(t)
    ensures LoadLine(name + (" " + (t + (" " + Show(x as int))))) == None
  {
    var r2 := " " + Show(x as int);
    var r1 := " " + (t + r2);
    EndOfLineReadsNothing();
    IntThenRest(x, []);
    assert Show(x as int) + [] == Show(x as int);
    ReadFieldsFailStep(r2, IntField, [IntField], Number(x), []);
    assert [IntField] + [IntField] == [IntField, IntField];
    BlankIsSkipped(t + r2);
    WordThenSpace(t, Show(x as int));
    ReadFieldsFailStep(r1, WordField, [IntField, IntField], Word(t), r2);
    assert [WordField] + [IntField, IntField] == [WordField, IntField, IntField];
    WordThenSpace(name, t + r2);
    ReadFieldsFailStep(name + r1, WordField, [WordField, IntField, IntField], Word(name), r1);
    assert [WordField] + [WordField, IntField, IntField] == RecordFields;
  }

  /** A line of a name and a type only loads nothing. */
  lemma TwoWordsAreSkipped(name: string, t: string)
    requires WellFormedName(name) && WellFormedName(t)
    ensures LoadLine(name + (" " + t)) == None
  {
    EndOfLineReadsNothing();
    WordLengthOfWord(t, []);
    assert t + [] == t;
    assert t[0] in t;
    BlankIsSkipped(t);
    assert ReadWord(t) == Some((t, []));
    ReadFieldsFailStep(" " + t, WordField, [IntField, IntField], Word(t), []);
    assert [WordField] + [IntField, IntField] == [WordField, IntField, IntField];
    WordThenSpace(name, t);
    ReadFieldsFailStep(name + (" " + t), WordField, [WordField, IntField, IntField], Word(name), " " + t);
    assert [WordField] + [WordField, IntField, IntField] == RecordFields;
  }

  /** A well-formed line whose type is not registered loads nothing. */
  lemma UnknownTypeIsSkipped(name: string, t: string, x: Int32, y: Int32)
    requires WellFormedName(name) && WellFormedName(t) && Lookup(Creators, t) == None
    ensures LoadLine(name + (" " + (t + (" " + (Show(x as int) + (" " + Show(y as int))))))) == None
  {
    LineFieldsReadBack(name, t, x, y);
  }

  /** Every written line parses back into the NPC it was written from. */
  lemma SaveLineRoundTrip(v: NpcView)
    requires WellFormedName(v.name)
    ensures LoadLine(SaveLine(v)) == Some(v.(alive := true))
  {
    FieldsReadBack(v);
    CreateOfTypeName(v.kind, v.name, v.position);
  }

  /**
   * Round trip (test_factory.cpp FullCycle): loading the saved lines gives back
   * exactly the living NPCs, in order, with the same names, kinds and positions.
   */
  lemma {:induction false} SaveLoadRoundTrip(vs: seq<NpcView>)
    requires forall v :: v in vs && v.alive ==> WellFormedName(v.name)
    ensures Loaded(Saved(vs)) == LiveOnly(vs)
  {
    if vs != [] {
      var head := if vs[0].alive then [SaveLine(vs[0])] else [];
      assert forall v :: v in vs[1..] ==> v in vs;
      SaveLoadRoundTrip(vs[1..]);
      LoadedAppend(head, Saved(vs[1..]));
      if vs[0].alive {
        SaveLineRoundTrip(vs[0]);
        assert vs[0].(alive := true) == vs[0];
        assert head[1..] == [];
      }
    }
  }
}
