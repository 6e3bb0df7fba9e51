/** The vendored json-simple JSONArray writers: the elements of an array or a collection written
    into a character stream, framed by brackets, separated by commas, with "null" for null. */
module JsonArray {
  import opened Wrappers
  import opened Seqs
  import opened JavaText

  /** java.io.StringWriter: the character stream that toJSONString hands to the writers. */
  class StringWriter {
    var buffer: string

    constructor ()
      ensures buffer == []
    {
      buffer := [];
    }

    /** write(String), and write(int) of a single character. */
    method Write(s: string)
      modifies this
      ensures buffer == old(buffer) + s
    {
      buffer := buffer + s;
    }

    function ToString(): string
      reads this
    {
      buffer
    }
  }

  /** Element texts joined by commas between brackets. */
  function Bracketed(texts: seq<string>): string
  {
    "[" + Join(texts, ",") + "]"
  }

  /** The text of a non-null array or collection whose elements are written by `show`. */
  function ArrayText<T>(elems: seq<T>, show: T -> string): string
  {
    Bracketed(MapSeq(show, elems))
  }

  /** writeJSONString(byte[] | short[] | int[] | long[] | boolean[] | Object[], out): `show` is
      String.valueOf for the primitive arrays and JSONValue.writeJSONString for Object[]. */
  method WriteArray<T>(a: array?<T>, show: T -> string, out: StringWriter)
    modifies out
    ensures a == null ==> out.buffer == old(out.buffer) + "null"
    ensures a != null && a.Length == 0 ==> out.buffer == old(out.buffer) + "[]"
    ensures a != null ==> out.buffer == old(out.buffer) + ArrayText(a[..], show)
  {
    if a == null {
      out.Write("null");
    } else if a.Length == 0 {
      out.Write("[]");
    } else {
      ghost var elems := a[..];
      out.Write("[");
      ghost var prefix := out.buffer;
      out.Write(show(a[0]));
      JoinMapFirst(show, elems, ",");
      for i := 1 to a.Length
        invariant out.buffer == prefix + Join(MapSeq(show, elems[..i]), ",")
      {
        ghost var body := Join(MapSeq(show, elems[..i]), ",");
        out.Write(",");
        out.Write(show(a[i]));
        JoinMapStep(show, elems, i, ",");
        ConcatAssociative(prefix, body, ",");
        ConcatAssociative(prefix, body + ",", show(a[i]));
      }
      assert elems[..a.Length] == elems;
      out.Write("]");
    }
  }

  /** toJSONString(array): what the array writer puts into a fresh StringWriter. */
  method ToJsonString<T>(a: array?<T>, show: T -> string) returns (s: string)
    ensures a == null ==> s == "null"
    ensures a != null ==> s == ArrayText(a[..], show)
  {
    var writer := new StringWriter();
    WriteArray(a, show, writer);
    s := writer.ToString();
  }

  /** A char written between double quotes, as it is, without escaping. */
  function Quoted(c: char): string
  {
    ['"', c, '"']
  }

  /** String.valueOf(char). */
  function CharText(c: char): string
  {
    [c]
  }

  /** The char writer's own framing, quotes attached to brackets and separators, is the
      bracketed list of quoted chars. */
  lemma {:induction false} CharFraming(cs: seq<char>)
    requires |cs| >= 1
    ensures "[\"" + Join(MapSeq(CharText, cs), "\",\"") + "\"]" == ArrayText(cs, Quoted)
  {
    QuotedJoin(cs);
    var inner := Join(MapSeq(CharText, cs), "\",\"");
    assert "[\"" + inner + "\"]" == "[" + ("\"" + inner + "\"") + "]";
  }

  lemma {:induction false} QuotedJoin(cs: seq<char>)
    requires |cs| >= 1
    ensures "\"" + Join(MapSeq(CharText, cs), "\",\"") + "\"" == Join(MapSeq(Quoted, cs), ",")
    decreases |cs|
  {
    if |cs| == 1 {
      JoinMapFirst(CharText, cs, "\",\"");
      JoinMapFirst(Quoted, cs, ",");
      assert cs[..1] == cs;
    } else {
      var n := |cs| - 1;
      assert cs[..n + 1] == cs;
      QuotedJoin(cs[..n]);
      assert cs[..n][..n] == cs[..n];
      JoinMapStep(CharText, cs, n, "\",\"");
      JoinMapStep(Quoted, cs, n, ",");
      var plain := Join(MapSeq(CharText, cs[..n]), "\",\"");
      var quoted := Join(MapSeq(Quoted, cs[..n]), ",");
      calc {
        "\"" + Join(MapSeq(CharText, cs), "\",\"") + "\"";
        "\"" + (plain + "\",\"" + [cs[n]]) + "\"";
        ("\"" + plain + "\"") + "," + Quoted(cs[n]);
        quoted + "," + Quoted(cs[n]);
        Join(MapSeq(Quoted, cs), ",");
      }
    }
  }

  /** writeJSONString(char[], out): the quotes are written with the brackets and separators. */
  method WriteCharArray(a: array?<char>, out: StringWriter)
    modifies out
    ensures a == null ==> out.buffer == old(out.buffer) + "null"
    ensures a != null && a.Length == 0 ==> out.buffer == old(out.buffer) + "[]"
    ensures a != null ==> out.buffer == old(out.buffer) + ArrayText(a[..], Quoted)
  {
    if a == null {
      out.Write("null");
    } else if a.Length == 0 {
      out.Write("[]");
    } else {
      ghost var elems := a[..];
      out.Write("[\"");
      ghost var prefix := out.buffer;
      out.Write(CharText(a[0]));
      JoinMapFirst(CharText, elems, "\",\"");
      for i := 1 to a.Length
        invariant out.buffer == prefix + Join(MapSeq(CharText, elems[..i]), "\",\"")
      {
        ghost var body := Join(MapSeq(CharText, elems[..i]), "\",\"");
        out.Write("\",\"");
        out.Write(CharText(a[i]));
        JoinMapStep(CharText, elems, i, "\",\"");
        ConcatAssociative(prefix, body, "\",\"");
        ConcatAssociative(prefix, body + "\",\"", CharText(a[i]));
      }
      assert elems[..a.Length] == elems;
      ghost var body := Join(MapSeq(CharText, elems), "\",\"");
      out.Write("\"]");
      ConcatAssociative(old(out.buffer), "[\"", body);
      ConcatAssociative(old(out.buffer), "[\"" + body, "\"]");
      CharFraming(elems);
    }
  }

  /** toJSONString(char[]). */
  method ToJsonStringChars(a: array?<char>) returns (s: string)
    ensures a == null ==> s == "null"
    ensures a != null ==> s == ArrayText(a[..], Quoted)
  {
    var writer := new StringWriter();
    WriteCharArray(a, writer);
    s := writer.ToString();
  }

  /** A collection element: "null" for null, otherwise what JSONValue.writeJSONString writes. */
  function ElementText<E>(show: E -> string): Option<E> -> string
  {
    (v: Option<E>) => if v.None? then "null" else show(v.value)
  }

  /** writeJSONString(Collection, out): a null collection is None, a null element None; the
      sequence is the iterator's order. */
  method WriteCollection<E>(collection: Option<seq<Option<E>>>, show: E -> string, out: StringWriter)
    modifies out
    ensures collection.None? ==> out.buffer == old(out.buffer) + "null"
    ensures collection.Some? ==> out.buffer == old(out.buffer) + ArrayText(collection.value, ElementText(show))
  {
    if collection.None? {
      out.Write("null");
    } else {
      var elems := collection.value;
      ghost var element := ElementText(show);
      var first := true;
      var next := 0;
      out.Write("[");
      ghost var prefix := out.buffer;
      while next < |elems|
        invariant 0 <= next <= |elems|
        invariant first <==> next == 0
        invariant out.buffer == prefix + Join(MapSeq(element, elems[..next]), ",")
      {
        ghost var body := Join(MapSeq(element, elems[..next]), ",");
        ghost var separator := if first then "" else ",";
        if first {
          first := false;
        } else {
          out.Write(",");
        }
        var value := elems[next];
        if value.None? {
          out.Write("null");
        } else {
          out.Write(show(value.value));
        }
        if next == 0 {
          JoinMapFirst(element, elems, ",");
        } else {
          JoinMapStep(element, elems, next, ",");
        }
        ConcatAssociative(prefix, body, separator);
        ConcatAssociative(prefix, body + separator, element(value));
        next := next + 1;
      }
      assert elems[..|elems|] == elems;
      out.Write("]");
    }
  }

  /** toJSONString(Collection). */
  method ToJsonStringCollection<E>(collection: Option<seq<Option<E>>>, show: E -> string) returns (s: string)
    ensures collection.None? ==> s == "null"
    ensures collection.Some? ==> s == ArrayText(collection.value, ElementText(show))
  {
    var writer := new StringWriter();
    WriteCollection(collection, show, writer);
    s := writer.ToString();
  }

  // Reading written arrays back.

  /** Strip the brackets, split at the commas and read every field; "[]" is the empty array. */
  function DecodeArray<T>(text: string, read: string -> Option<T>): Option<seq<T>>
  {
    if |text| < 2 || text[0] != '[' || text[|text| - 1] != ']' then None
    else
      var inner := text[1..|text| - 1];
      if inner == "" then Some([]) else ReadEach(Split(inner, ','), read)
  }

  function ReadEach<T>(fields: seq<string>, read: string -> Option<T>): Option<seq<T>>
  {
    if |fields| == 0 then Some([])
    else
      match ReadEach(fields[..|fields| - 1], read)
      case None => None
      case Some(init) =>
        match read(fields[|fields| - 1])
        case None => None
        case Some(x) => Some(init + [x])
  }

  lemma {:induction false} ReadEachShown<T>(xs: seq<T>, show: T -> string, read: string -> Option<T>)
    requires forall x :: read(show(x)) == Some(x)
    ensures ReadEach(MapSeq(show, xs), read) == Some(xs)
    decreases |xs|
  {
    if |xs| > 0 {
      var n := |xs| - 1;
      assert MapSeq(show, xs)[..n] == MapSeq(show, xs[..n]);
      ReadEachShown(xs[..n], show, read);
      assert xs[..n] + [xs[n]] == xs;
    }
  }

  /** Whatever the elements, when their texts are non-empty, free of commas and readable back,
      the written array reads back as the same elements in the same order. */
  lemma ArrayRoundTrip<T>(xs: seq<T>, show: T -> string, read: string -> Option<T>)
    requires forall x :: |show(x)| >= 1 && ',' !in show(x) && read(show(x)) == Some(x)
    ensures DecodeArray(ArrayText(xs, show), read) == Some(xs)
  {
    var parts := MapSeq(show, xs);
    var inner := Join(parts, ",");
    var text := ArrayText(xs, show);
    assert text == "[" + inner + "]";
    assert text[1..|text| - 1] == inner;
    if |xs| > 0 {
      assert [','] == ",";
      SplitJoin(parts, ',');
      ReadEachShown(xs, show, read);
    }
  }

  /** int[] / long[] / short[] / byte[]: the decimal texts read back as the same numbers. */
  lemma IntArrayRoundTrip(xs: seq<int>)
    ensures DecodeArray(ArrayText(xs, IntText), ParseInt) == Some(xs)
  {
    forall n: int ensures ParseInt(IntText(n)) == Some(n) {
      IntTextRoundTrip(n);
    }
    ArrayRoundTrip(xs, IntText, ParseInt);
  }

  /** The two Boolean tokens. */
  function ReadBoolText(s: string): Option<bool>
  {
    if s == "true" then Some(true) else if s == "false" then Some(false) else None
  }

  /** boolean[]: only the tokens true and false are written, and they read back in order. */
  lemma BooleanArrayRoundTrip(bs: seq<bool>)
    ensures DecodeArray(ArrayText(bs, BoolText), ReadBoolText) == Some(bs)
  {
    ArrayRoundTrip(bs, BoolText, ReadBoolText);
  }

  /** A collection field: "null" or a decimal number. */
  function ReadNullableInt(s: string): Option<Option<int>>
  {
    if s == "null" then Some(None)
    else
      match ParseInt(s)
      case None => None
      case Some(n) => Some(Some(n))
  }

  /** A collection of nullable numbers: null elements come back as null and the rest as the
      same numbers, in iteration order. */
  lemma NullableIntCollectionRoundTrip(xs: seq<Option<int>>)
    ensures DecodeArray(ArrayText(xs, ElementText(IntText)), ReadNullableInt) == Some(xs)
  {
    assert ParseInt("null") == None;
    forall v: Option<int>
      ensures |ElementText(IntText)(v)| >= 1 && ',' !in ElementText(IntText)(v)
      ensures ReadNullableInt(ElementText(IntText)(v)) == Some(v)
    {
      if v.Some? {
        IntTextRoundTrip(v.value);
      }
    }
    ArrayRoundTrip(xs, ElementText(IntText), ReadNullableInt);
  }

  /** Exactly one comma between consecutive elements and none elsewhere, when no element
      text contains a comma. */
  lemma CommaCount<T>(xs: seq<T>, show: T -> string)
    requires |xs| >= 1
    requires forall x :: ',' !in show(x)
    ensures multiset(ArrayText(xs, show))[','] == |xs| - 1
  {
    var parts := MapSeq(show, xs);
    assert [','] == ",";
    JoinSeparatorCount(parts, ',');
    assert ArrayText(xs, show) == "[" + Join(parts, ",") + "]";
  }

  /** A non-empty int[] (or long[], short[], byte[]) holds n - 1 commas. */
  lemma IntArrayCommas(xs: seq<int>)
    requires |xs| >= 1
    ensures multiset(ArrayText(xs, IntText))[','] == |xs| - 1
  {
    CommaCount(xs, IntText);
  }

  // The char[] layout.

  /** The character at position k of the quoted chars joined by commas: every char takes four
      positions, quote, char, quote, comma. */
  function QuotedAt(cs: seq<char>, k: int): char
    requires 0 <= k < 4 * |cs| - 1
  {
    if k % 4 == 1 then cs[k / 4] else if k % 4 == 3 then ',' else '"'
  }

  lemma {:induction false} QuotedLayout(cs: seq<char>)
    requires |cs| >= 1
    ensures |Join(MapSeq(Quoted, cs), ",")| == 4 * |cs| - 1
    ensures forall k :: 0 <= k < 4 * |cs| - 1 ==> Join(MapSeq(Quoted, cs), ",")[k] == QuotedAt(cs, k)
    decreases |cs|
  {
    var n := |cs| - 1;
    if n == 0 {
      JoinMapFirst(Quoted, cs, ",");
      assert cs[..1] == cs;
    } else {
      assert cs[..n + 1] == cs;
      QuotedLayout(cs[..n]);
      JoinMapStep(Quoted, cs, n, ",");
      var head := Join(MapSeq(Quoted, cs[..n]), ",");
      var joined := head + "," + Quoted(cs[n]);
      forall k | 0 <= k < 4 * |cs| - 1
        ensures joined[k] == QuotedAt(cs, k)
      {
        if k < |head| {
          assert joined[k] == head[k] == QuotedAt(cs[..n], k);
        } else if k > |head| {
          assert 4 * n <= k < 4 * n + 4;
          assert k / 4 == n;
        }
      }
    }
  }

  /** A written char[] of n chars is 4n + 1 long; char i is at position 4i + 2 exactly as it
      is, whatever it is, between quotes at 4i + 1 and 4i + 3, with commas between elements
      and brackets around them. */
  lemma CharArrayLayout(cs: seq<char>)
    requires |cs| >= 1
    ensures |ArrayText(cs, Quoted)| == 4 * |cs| + 1
    ensures ArrayText(cs, Quoted)[0] == '[' && ArrayText(cs, Quoted)[4 * |cs|] == ']'
    ensures forall k :: 1 <= k < 4 * |cs| ==> ArrayText(cs, Quoted)[k] == QuotedAt(cs, k - 1)
  {
    QuotedLayout(cs);
    var joined := Join(MapSeq(Quoted, cs), ",");
    assert ArrayText(cs, Quoted) == "[" + joined + "]";
  }

  /** Reading a written char[] back by position alone: no escape is ever needed. */
  function ReadChars(text: string): Option<seq<char>>
  {
    if text == "[]" then Some([])
    else if |text| < 5 || |text| % 4 != 1 || text[0] != '[' || text[|text| - 1] != ']' then None
    else Some(seq((|text| - 1) / 4, i requires 0 <= i < (|text| - 1) / 4 => text[4 * i + 2]))
  }

  lemma CharArrayRoundTrip(cs: seq<char>)
    ensures ReadChars(ArrayText(cs, Quoted)) == Some(cs)
  {
    var text := ArrayText(cs, Quoted);
    if |cs| >= 1 {
      CharArrayLayout(cs);
      assert text != "[]";
      var read := ReadChars(text).value;
      assert |read| == |cs|;
      forall i | 0 <= i < |cs|
        ensures read[i] == cs[i]
      {
        assert (4 * i + 1) / 4 == i && (4 * i + 1) % 4 == 1;
        assert text[4 * i + 2] == QuotedAt(cs, 4 * i + 1);
      }
      assert read == cs;
    }
  }
}
