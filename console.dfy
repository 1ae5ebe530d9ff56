/**
 * What `ls` and `dump` print, as a sequence of lines. Colours and message
 * wording are not modelled: each line records only what it shows.
 *
 * `dump` depends on two computations outside this model, UTF-8 decoding and
 * `json.loads`; they are parameters, `decode` and `parse`, that return
 * `None` where Python raises.
 */
module Console {
  import opened Wrappers
  import opened Storage
  import opened Records

  /** One printed line. */
  datatype Line =
    | ListingTitle(bucket: string)
    | ContentTitle(bucket: string, prefix: string)
    | KeyLine(key: string)
    | TextLine(content: string)
    | RecordLine(record: Json)

  // ---------------------------------------------------------------------------
  // ls

  /** One line per object, showing its key, in enumeration order. */
  function KeyLines(listing: seq<Object>): (lines: seq<Line>)
    ensures |lines| == |listing|
    ensures forall i :: 0 <= i < |listing| ==> lines[i] == KeyLine(listing[i].key)
  {
    if listing == [] then [] else [KeyLine(listing[0].key)] + KeyLines(listing[1..])
  }

  /** `ls`: a title naming the bucket, then the key of every object under the prefix. */
  function Ls(objects: seq<Object>, bucket: string, prefix: string): (lines: seq<Line>)
    ensures |lines| == |Listing(objects, prefix)| + 1
    ensures lines[0] == ListingTitle(bucket)
    ensures forall i :: 0 <= i < |Listing(objects, prefix)| ==> lines[i + 1] == KeyLine(Listing(objects, prefix)[i].key)
  {
    [ListingTitle(bucket)] + KeyLines(Listing(objects, prefix))
  }

  /** `ls` shows a key exactly when some object has it and it starts with the prefix. */
  lemma LsShowsMatchingKeys(objects: seq<Object>, bucket: string, prefix: string, key: string)
    ensures KeyLine(key) in Ls(objects, bucket, prefix) <==> exists o :: o in objects && o.key == key && prefix <= key
  {
    var listing := Listing(objects, prefix);
    var shown := KeyLines(listing);
    assert Ls(objects, bucket, prefix) == [ListingTitle(bucket)] + shown;
    if KeyLine(key) in shown {
      var i :| 0 <= i < |shown| && shown[i] == KeyLine(key);
      assert listing[i] in listing;
    }
    if exists o :: o in objects && o.key == key && prefix <= key {
      var o :| o in objects && o.key == key && prefix <= key;
      assert o in listing;
      var i :| 0 <= i < |listing| && listing[i] == o;
      assert shown[i] == KeyLine(key);
    }
  }

  // ---------------------------------------------------------------------------
  // dump

  /** Why `dump` stopped at an object: its bytes, its JSON, its rows. */
  datatype DumpError =
    | DecodeError(key: string)
    | ParseError(key: string)
    | NotIterable(key: string)
    | NotARecord(key: string)

  /** The lines printed, and the error that stopped the command, if any. */
  datatype Printout = Printout(lines: seq<Line>, failure: Option<DumpError>)

  /** Lines printed before a printout. */
  function Prepend(lines: seq<Line>, p: Printout): Printout
  {
    Printout(lines + p.lines, p.failure)
  }

  /**
   * `for row in json_content`: a list yields its items, a dict its keys and
   * a string its characters; anything else is not iterable.
   */
  function Rows(json: Json): Option<seq<Json>>
  {
    match json
    case Array(items) => Some(items)
    case Dict(fields) => Some(seq(|fields|, i requires 0 <= i < |fields| => Text(fields[i].0)))
    case Text(t) => Some(seq(|t|, i requires 0 <= i < |t| => Text([t[i]])))
    case _ => None
  }

  /** Each row projected on the keys and printed; a row that cannot be projected stops the command. */
  function ShowRows(rows: seq<Json>, keys: seq<string>, key: string): Printout
  {
    if rows == [] then Printout([], None)
    else
      match Project(rows[0], keys)
      case None => Printout([], Some(NotARecord(key)))
      case Some(shown) => Prepend([RecordLine(shown)], ShowRows(rows[1..], keys, key))
  }

  /**
   * One object: its key, then (once decoded) either its text as it is, or
   * its parsed rows projected on the keys.
   */
  function ShowObject(o: Object, keys: seq<string>, text: bool,
                      decode: Bytes -> Option<string>, parse: string -> Option<Json>): Printout
  {
    var title := [KeyLine(o.key)];
    match decode(o.payload)
    case None => Printout(title, Some(DecodeError(o.key)))
    case Some(content) =>
      if text then Printout(title + [TextLine(content)], None)
      else
        match parse(content)
        case None => Printout(title, Some(ParseError(o.key)))
        case Some(json) =>
          match Rows(json)
          case None => Printout(title, Some(NotIterable(o.key)))
          case Some(rows) => Prepend(title, ShowRows(rows, keys, o.key))
  }

  /** Every object in turn, stopping at the first that fails. */
  function ShowAll(listing: seq<Object>, keys: seq<string>, text: bool,
                   decode: Bytes -> Option<string>, parse: string -> Option<Json>): Printout
  {
    if listing == [] then Printout([], None)
    else
      var first := ShowObject(listing[0], keys, text, decode, parse);
      if first.failure != None then first
      else Prepend(first.lines, ShowAll(listing[1..], keys, text, decode, parse))
  }

  /**
   * `dump`: a title naming bucket and prefix, then every object under the
   * prefix. No keys (`None` or an empty list) shows rows unprojected.
   */
  function Dump(objects: seq<Object>, bucket: string, prefix: string, keys: seq<string>, text: bool,
                decode: Bytes -> Option<string>, parse: string -> Option<Json>): (out: Printout)
    ensures |out.lines| > 0 && out.lines[0] == ContentTitle(bucket, prefix)
  {
    Prepend([ContentTitle(bucket, prefix)], ShowAll(Listing(objects, prefix), keys, text, decode, parse))
  }

  /**
   * Printing two runs of objects: the first run's lines, and the second's
   * after them only if the first got through.
   */
  lemma {:induction false} ShowAllAppend(a: seq<Object>, b: seq<Object>, keys: seq<string>, text: bool,
                                         decode: Bytes -> Option<string>, parse: string -> Option<Json>)
    ensures ShowAll(a + b, keys, text, decode, parse)
         == if ShowAll(a, keys, text, decode, parse).failure != None then ShowAll(a, keys, text, decode, parse)
            else Prepend(ShowAll(a, keys, text, decode, parse).lines, ShowAll(b, keys, text, decode, parse))
  {
    if a == [] {
      assert a + b == b;
    } else {
      assert (a + b)[0] == a[0];
      assert (a + b)[1..] == a[1..] + b;
      ShowAllAppend(a[1..], b, keys, text, decode, parse);
    }
  }

  /**
   * In text mode, when every payload decodes, `dump` prints each key followed
   * by its content unchanged, in order, and nothing else.
   */
  lemma {:induction false} ShowAllText(listing: seq<Object>, keys: seq<string>,
                                       decode: Bytes -> Option<string>, parse: string -> Option<Json>)
    requires forall o :: o in listing ==> decode(o.payload).Some?
    ensures var out := ShowAll(listing, keys, true, decode, parse);
      out.failure == None && |out.lines| == 2 * |listing| &&
      forall i :: 0 <= i < |listing| ==>
        out.lines[2 * i] == KeyLine(listing[i].key) &&
        out.lines[2 * i + 1] == TextLine(decode(listing[i].payload).value)
  {
    if listing != [] {
      assert listing[0] in listing;
      ShowAllText(listing[1..], keys, decode, parse);
      var out := ShowAll(listing, keys, true, decode, parse);
      var rest := ShowAll(listing[1..], keys, true, decode, parse);
      forall i | 1 <= i < |listing|
        ensures out.lines[2 * i] == KeyLine(listing[i].key) &&
                out.lines[2 * i + 1] == TextLine(decode(listing[i].payload).value)
      {
        assert out.lines[2 * i] == rest.lines[2 * (i - 1)];
        assert out.lines[2 * i + 1] == rest.lines[2 * (i - 1) + 1];
      }
    }
  }

  /** `dump` in text mode shows each matching object's key and decoded content verbatim. */
  lemma DumpText(objects: seq<Object>, bucket: string, prefix: string, keys: seq<string>,
                 decode: Bytes -> Option<string>, parse: string -> Option<Json>)
    requires forall o :: o in Listing(objects, prefix) ==> decode(o.payload).Some?
    ensures var out, listing := Dump(objects, bucket, prefix, keys, true, decode, parse), Listing(objects, prefix);
      out.failure == None && |out.lines| == 1 + 2 * |listing| &&
      forall i :: 0 <= i < |listing| ==>
        out.lines[2 * i + 1] == KeyLine(listing[i].key) &&
        out.lines[2 * i + 2] == TextLine(decode(listing[i].payload).value)
  {
    ShowAllText(Listing(objects, prefix), keys, decode, parse);
  }

  /** In text mode neither the keys nor the JSON parser make any difference. */
  lemma {:induction false} ShowAllTextIgnoresParsing(listing: seq<Object>, keys: seq<string>, keys': seq<string>,
                                                     decode: Bytes -> Option<string>,
                                                     parse: string -> Option<Json>, parse': string -> Option<Json>)
    ensures ShowAll(listing, keys, true, decode, parse) == ShowAll(listing, keys', true, decode, parse')
  {
    if listing != [] {
      ShowAllTextIgnoresParsing(listing[1..], keys, keys', decode, parse, parse');
    }
  }

  /** Every record line shows a row projected on the keys. */
  ghost predicate ShowsProjected(lines: seq<Line>, keys: seq<string>)
  {
    forall l :: l in lines && l.RecordLine? ==>
      l.record.Dict? && DistinctKeys(l.record.fields) &&
      forall k :: k in Keys(l.record.fields) <==> k in keys
  }

  /** With keys, every printed row is a dict holding exactly the requested keys. */
  lemma {:induction false} ShowRowsProjected(rows: seq<Json>, keys: seq<string>, key: string)
    requires keys != []
    ensures ShowsProjected(ShowRows(rows, keys, key).lines, keys)
  {
    if rows != [] {
      ProjectSpec(rows[0], keys);
      ShowRowsProjected(rows[1..], keys, key);
    }
  }

  /** Without keys, every row is printed unchanged and none fails. */
  lemma {:induction false} ShowRowsUnprojected(rows: seq<Json>, key: string)
    ensures var out := ShowRows(rows, [], key);
      out.failure == None && |out.lines| == |rows| &&
      forall i :: 0 <= i < |rows| ==> out.lines[i] == RecordLine(rows[i])
  {
    if rows != [] {
      ShowRowsUnprojected(rows[1..], key);
    }
  }

  /**
   * The rows of an object print without error exactly when every row can be
   * projected (always without keys, only dicts with keys), and then each row
   * prints as its projection, in order.
   */
  lemma {:induction false} ShowRowsAllRecords(rows: seq<Json>, keys: seq<string>, key: string)
    ensures ShowRows(rows, keys, key).failure == None <==> forall r :: r in rows ==> Project(r, keys).Some?
    ensures var out := ShowRows(rows, keys, key);
      out.failure == None ==>
        |out.lines| == |rows| &&
        forall i :: 0 <= i < |rows| ==> Project(rows[i], keys).Some? && out.lines[i] == RecordLine(Project(rows[i], keys).value)
  {
    if rows != [] {
      assert rows[0] in rows;
      ShowRowsAllRecords(rows[1..], keys, key);
      var out, rest := ShowRows(rows, keys, key), ShowRows(rows[1..], keys, key);
      if Project(rows[0], keys).Some? {
        assert out.failure == rest.failure;
        assert (forall r :: r in rows ==> Project(r, keys).Some?) <==> (forall r :: r in rows[1..] ==> Project(r, keys).Some?) by {
          assert forall r :: r in rows ==> r == rows[0] || r in rows[1..];
          assert forall r :: r in rows[1..] ==> r in rows;
        }
        if out.failure == None {
          forall i | 1 <= i < |rows| ensures out.lines[i] == rest.lines[i - 1] {
          }
        }
      }
    }
  }

  /**
   * An object parsed into rows that all project: its key, then one record
   * line per row holding the row's projection, and no error.
   */
  lemma {:induction false} ShowObjectRecords(o: Object, keys: seq<string>,
                          decode: Bytes -> Option<string>, parse: string -> Option<Json>)
    requires decode(o.payload).Some? && parse(decode(o.payload).value).Some?
    requires Rows(parse(decode(o.payload).value).value).Some?
    requires forall r :: r in Rows(parse(decode(o.payload).value).value).value ==> Project(r, keys).Some?
    ensures var out, rows := ShowObject(o, keys, false, decode, parse), Rows(parse(decode(o.payload).value).value).value;
      out.failure == None && |out.lines| == 1 + |rows| && out.lines[0] == KeyLine(o.key) &&
      forall i :: 0 <= i < |rows| ==> out.lines[i + 1] == RecordLine(Project(rows[i], keys).value)
  {
    var content := decode(o.payload).value;
    var json := parse(content).value;
    var rows := Rows(json).value;
    var out, inner := ShowObject(o, keys, false, decode, parse), ShowRows(rows, keys, o.key);
    assert out == Prepend([KeyLine(o.key)], inner);
    ShowRowsAllRecords(rows, keys, o.key);
    forall i | 0 <= i < |rows| ensures out.lines[i + 1] == RecordLine(Project(rows[i], keys).value) {
      assert out.lines[i + 1] == inner.lines[i];
    }
  }

  /** The lines of several printouts, one after the other. */
  function Concat(parts: seq<seq<Line>>): seq<Line>
  {
    if parts == [] then [] else parts[0] + Concat(parts[1..])
  }

  /**
   * When no object fails, `dump` prints the objects' printouts one after the
   * other, in listing order, and nothing else.
   */
  lemma {:induction false} ShowAllConcat(listing: seq<Object>, keys: seq<string>, text: bool,
                                         decode: Bytes -> Option<string>, parse: string -> Option<Json>)
    requires forall o :: o in listing ==> ShowObject(o, keys, text, decode, parse).failure == None
    ensures var out := ShowAll(listing, keys, text, decode, parse);
      out.failure == None &&
      out.lines == Concat(seq(|listing|, i requires 0 <= i < |listing| => ShowObject(listing[i], keys, text, decode, parse).lines))
  {
    if listing != [] {
      assert listing[0] in listing;
      ShowAllConcat(listing[1..], keys, text, decode, parse);
      var parts := seq(|listing|, i requires 0 <= i < |listing| => ShowObject(listing[i], keys, text, decode, parse).lines);
      var rest := listing[1..];
      assert parts[1..] == seq(|rest|, i requires 0 <= i < |rest| => ShowObject(rest[i], keys, text, decode, parse).lines);
    }
  }

  /** With keys, every record `dump` prints is projected on them. */
  lemma {:induction false} ShowAllProjected(listing: seq<Object>, keys: seq<string>, text: bool,
                                            decode: Bytes -> Option<string>, parse: string -> Option<Json>)
    requires keys != []
    ensures ShowsProjected(ShowAll(listing, keys, text, decode, parse).lines, keys)
  {
    if listing != [] {
      var o := listing[0];
      match decode(o.payload)
      case None =>
      case Some(content) =>
        if !text {
          match parse(content)
          case None =>
          case Some(json) =>
            match Rows(json)
            case None =>
            case Some(rows) => ShowRowsProjected(rows, keys, o.key);
        }
      ShowAllProjected(listing[1..], keys, text, decode, parse);
    }
  }

  /** Rows stop only with the error of the object they belong to. */
  lemma {:induction false} ShowRowsFailure(rows: seq<Json>, keys: seq<string>, key: string)
    ensures ShowRows(rows, keys, key).failure != None ==> ShowRows(rows, keys, key).failure == Some(NotARecord(key))
  {
    if rows != [] && Project(rows[0], keys).Some? {
      ShowRowsFailure(rows[1..], keys, key);
    }
  }

  /** An object prints its key first, and an error stopping at it names its key. */
  lemma ShowObjectFailure(o: Object, keys: seq<string>, text: bool,
                          decode: Bytes -> Option<string>, parse: string -> Option<Json>)
    ensures var out := ShowObject(o, keys, text, decode, parse);
      |out.lines| > 0 && out.lines[0] == KeyLine(o.key) &&
      (out.failure != None ==> out.failure.value.key == o.key)
  {
    match decode(o.payload)
    case None =>
    case Some(content) =>
      match parse(content)
      case None =>
      case Some(json) =>
        match Rows(json)
        case None =>
        case Some(rows) => ShowRowsFailure(rows, keys, o.key);
  }

  /** A `dump` that stops names an object under the prefix, after printing its key. */
  lemma {:induction false} ShowAllFailure(listing: seq<Object>, keys: seq<string>, text: bool,
                                          decode: Bytes -> Option<string>, parse: string -> Option<Json>)
    ensures var out := ShowAll(listing, keys, text, decode, parse);
      out.failure != None ==>
        KeyLine(out.failure.value.key) in out.lines && exists o :: o in listing && o.key == out.failure.value.key
  {
    if listing != [] {
      var out := ShowAll(listing, keys, text, decode, parse);
      var first := ShowObject(listing[0], keys, text, decode, parse);
      ShowObjectFailure(listing[0], keys, text, decode, parse);
      if first.failure == None {
        ShowAllFailure(listing[1..], keys, text, decode, parse);
        if out.failure != None {
          var o :| o in listing[1..] && o.key == out.failure.value.key;
          assert o in listing;
        }
      } else {
        assert listing[0] in listing;
      }
    }
  }
}
