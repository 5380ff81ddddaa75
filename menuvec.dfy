// src/menuvec.rs: `MenuVec<T>`, a vector parsed from one line by splitting on
// single spaces and parsing every piece with `T`'s parser.
module MenuVec {
  import opened Wrappers
  import opened Text

  /** The vector a successful parse yields; `Deref`/`AsRef`/`AsMut` expose `items`. */
  datatype MenuVec<T> = MenuVec(items: seq<T>)

  /**
   * Parses every piece in order (`collect` into a `Result`): all pieces must
   * parse, and otherwise the error is that of the first piece that fails.
   */
  function ParseAll<T, E>(pieces: seq<string>, parse: string -> Result<T, E>): (r: Result<seq<T>, E>)
    ensures r.Ok? <==> forall i :: 0 <= i < |pieces| ==> parse(pieces[i]).Ok?
    ensures r.Ok? ==> |r.value| == |pieces|
    ensures r.Ok? ==> forall i :: 0 <= i < |pieces| ==> r.value[i] == parse(pieces[i]).value
    ensures r.Err? ==> exists i :: 0 <= i < |pieces| && parse(pieces[i]).Err? && r.error == parse(pieces[i]).error
                         && forall j :: 0 <= j < i ==> parse(pieces[j]).Ok?
  {
    if pieces == [] then Ok([])
    else match parse(pieces[0])
      case Err(e) => Err(e)
      case Ok(v) =>
        match ParseAll(pieces[1..], parse)
        case Err(e) =>
          ghost var i :| 0 <= i < |pieces[1..]| && parse(pieces[1..][i]).Err? && e == parse(pieces[1..][i]).error
                      && forall j :: 0 <= j < i ==> parse(pieces[1..][j]).Ok?;
          assert parse(pieces[i + 1]).Err? && forall j :: 0 <= j < i + 1 ==> parse(pieces[j]).Ok?;
          Err(e)
        case Ok(vs) => Ok([v] + vs)
  }

  /** When every piece parses, the result is exactly the parsed values. */
  lemma ParseAllOk<T, E>(pieces: seq<string>, parse: string -> Result<T, E>, values: seq<T>)
    requires |values| == |pieces|
    requires forall i :: 0 <= i < |pieces| ==> parse(pieces[i]) == Ok(values[i])
    ensures ParseAll(pieces, parse) == Ok(values)
  {
    var r := ParseAll(pieces, parse);
    assert r.Ok?;
    assert r.value == values;
  }

  /** `MenuVec::from_str`: `s.split(' ')`, each piece parsed in order. */
  function ParseMenuVec<T, E>(s: string, parse: string -> Result<T, E>): (r: Result<MenuVec<T>, E>)
  {
    match ParseAll(Split(s, ' '), parse)
    case Ok(items) => Ok(MenuVec(items))
    case Err(e) => Err(e)
  }

  /** A successful parse has one item per space-separated piece, in order. */
  lemma ParsedLength<T, E>(s: string, parse: string -> Result<T, E>)
    requires ParseMenuVec(s, parse).Ok?
    ensures |ParseMenuVec(s, parse).value.items| == Count(s, ' ') + 1
    ensures forall i :: 0 <= i < |Split(s, ' ')| ==>
              ParseMenuVec(s, parse).value.items[i] == parse(Split(s, ' ')[i]).value
  {
    SplitCount(s, ' ');
  }

  function AsText(s: string): Result<string, ()> { Ok(s) }

  /** With the identity parser the items glue back to the input. */
  lemma TextRoundTrip(s: string)
    ensures ParseMenuVec(s, AsText).Ok?
    ensures Join(ParseMenuVec(s, AsText).value.items, ' ') == s
  {
    SplitJoin(s, ' ');
    var items := ParseMenuVec(s, AsText).value.items;
    assert items == Split(s, ' ');
  }

  /** Three separator-free words joined by single separators split back into them. */
  lemma SplitThree(a: string, b: string, c: string, sep: char)
    requires forall k :: 0 <= k < |a| ==> a[k] != sep
    requires forall k :: 0 <= k < |b| ==> b[k] != sep
    requires forall k :: 0 <= k < |c| ==> c[k] != sep
    ensures Split(a + [sep] + b + [sep] + c, sep) == [a, b, c]
  {
    SplitNone(c, sep);
    SplitAt(b, sep, c);
    assert a + [sep] + b + [sep] + c == a + [sep] + (b + [sep] + c);
    SplitAt(a, sep, b + [sep] + c);
  }

  /** Commas are not separators: "Ahmad, Hugo, Oui" gives three pieces that keep their commas. */
  lemma CommasKept()
    ensures ParseMenuVec("Ahmad, Hugo, Oui", AsText) == Ok(MenuVec(["Ahmad,", "Hugo,", "Oui"]))
  {
    SplitThree("Ahmad,", "Hugo,", "Oui", ' ');
    assert "Ahmad, Hugo, Oui" == "Ahmad," + [' '] + "Hugo," + [' '] + "Oui";
    ParseAllOk(["Ahmad,", "Hugo,", "Oui"], AsText, ["Ahmad,", "Hugo,", "Oui"]);
  }

  function AsUsize(s: string): Result<nat, ()> {
    match ParseUsize(s)
    case Some(n) => Ok(n)
    case None => Err(())
  }

  /** A number written with two digits reads back as itself. */
  lemma UsizeLiteral(n: nat, s: string)
    requires 10 <= n < 100 && s == [DigitChar(n / 10), DigitChar(n % 10)]
    ensures ParseUsize(s) == Some(n)
  {
    ParseUsizeOfDisplay(n);
    assert NatToString(n) == s;
  }

  /** Order is preserved: "43 56 34" gives 43, 56, 34. */
  lemma NumbersInOrder()
    ensures ParseMenuVec("43 56 34", AsUsize) == Ok(MenuVec([43, 56, 34]))
  {
    SplitThree("43", "56", "34", ' ');
    assert "43 56 34" == "43" + [' '] + "56" + [' '] + "34";
    SampleNumbersParse();
  }

  lemma SampleNumbersParse()
    ensures ParseAll(["43", "56", "34"], AsUsize) == Ok([43, 56, 34])
  {
    var pieces := ["43", "56", "34"];
    UsizeLiteral(43, pieces[0]);
    UsizeLiteral(56, pieces[1]);
    UsizeLiteral(34, pieces[2]);
    ParseAllOk(pieces, AsUsize, [43, 56, 34]);
  }

  /** A doubled space makes an empty piece, which a number parser rejects. */
  lemma DoubleSpaceFails()
    ensures ParseMenuVec("1  2", AsUsize).Err?
  {
    SplitNone("2", ' ');
    SplitAt("", ' ', "2");
    assert "1  2" == "1" + [' '] + ("" + [' '] + "2");
    SplitAt("1", ' ', " 2");
    assert Split("1  2", ' ')[1] == "";
  }
}
