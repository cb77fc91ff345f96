/** The parser of form-encoded request bodies (SmashItEngine/Utils/HttpContentParser.cs).

    A body such as "user=bob&age=42" is split on '&' into segments and every segment is split
    on '=' into exactly one key and one value. This is a strict subset of the
    application/x-www-form-urlencoded format of the WHATWG URL Standard (section 5.1): there is
    no percent-decoding, '+' is not read as a space, and an empty segment is an error. */
module HttpContentParser {
  import opened Wrappers

  /** KeyValuePair<string, string>. */
  datatype Pair = Pair(key: string, value: string)

  datatype ParseError =
    | NullOrEmptyContent   // the ArgumentNullException for a null or empty body
    | MalformedContent     // the ArgumentException for a segment that is not "key=value"

  const PairSeparator: char := '&'
  const KeyValueSeparator: char := '='

  function Occurrences(s: string, c: char): nat
  {
    multiset(s)[c]
  }

  /** The position of the first occurrence of c in s. */
  function FirstIndex(s: string, c: char): (k: nat)
    requires c in s
    ensures k < |s| && s[k] == c
    ensures forall i :: 0 <= i < k ==> s[i] != c
  {
    if s[0] == c then 0
    else
      assert s == [s[0]] + s[1..];
      1 + FirstIndex(s[1..], c)
  }

  /** String.Split(char): the pieces between the occurrences of `sep`, empty pieces kept, so
      there is always one piece more than there are separators. */
  function Split(s: string, sep: char): (pieces: seq<string>)
    ensures |pieces| >= 1
    decreases |s|
  {
    if sep !in s then [s]
    else
      var k := FirstIndex(s, sep);
      [s[..k]] + Split(s[k + 1..], sep)
  }

  lemma {:induction false} SplitCount(s: string, sep: char)
    ensures |Split(s, sep)| == Occurrences(s, sep) + 1
    decreases |s|
  {
    if sep in s {
      var k := FirstIndex(s, sep);
      assert s == s[..k] + [sep] + s[k + 1..];
      SplitCount(s[k + 1..], sep);
    }
  }

  /** Splitting adds no character: a character absent from the input is absent from every piece. */
  lemma {:induction false} SplitKeepsAbsence(s: string, sep: char, c: char)
    requires c !in s
    ensures forall i :: 0 <= i < |Split(s, sep)| ==> c !in Split(s, sep)[i]
    decreases |s|
  {
    if sep in s {
      var k := FirstIndex(s, sep);
      assert c !in s[..k] && c !in s[k + 1..];
      SplitKeepsAbsence(s[k + 1..], sep, c);
    }
  }

  /** String.Join(sep, pieces), the inverse of Split. */
  function Join(pieces: seq<string>, sep: char): string
  {
    if |pieces| == 0 then []
    else if |pieces| == 1 then pieces[0]
    else pieces[0] + [sep] + Join(pieces[1..], sep)
  }

  lemma {:induction false} JoinSplit(s: string, sep: char)
    ensures Join(Split(s, sep), sep) == s
    decreases |s|
  {
    if sep in s {
      var k := FirstIndex(s, sep);
      var rest := Split(s[k + 1..], sep);
      JoinSplit(s[k + 1..], sep);
      assert ([s[..k]] + rest)[1..] == rest;
      assert s == s[..k] + [sep] + s[k + 1..];
    }
  }

  /** A leading separator contributes one empty piece. */
  lemma {:induction false} SplitLeadingSeparator(y: string, sep: char)
    ensures Split([sep] + y, sep) == [[]] + Split(y, sep)
  {
    assert FirstIndex([sep] + y, sep) == 0;
    assert ([sep] + y)[1..] == y;
  }

  /** The first occurrence of c is the one at k when none comes before it. */
  lemma FirstIndexAt(s: string, c: char, k: nat)
    requires k < |s| && s[k] == c
    requires forall i :: 0 <= i < k ==> s[i] != c
    ensures c in s && FirstIndex(s, c) == k
  {
    assert s[k] in s;
    var first := FirstIndex(s, c);
    assert s[first] == c && s[k] == c;
  }

  /** Splitting at the first separator, given by its position. */
  lemma SplitAt(s: string, sep: char, k: nat)
    requires k < |s| && s[k] == sep
    requires forall i :: 0 <= i < k ==> s[i] != sep
    ensures Split(s, sep) == [s[..k]] + Split(s[k + 1..], sep)
  {
    FirstIndexAt(s, sep, k);
  }

  /** No piece contains the separator. */
  lemma {:induction false} SplitRemovesSeparator(s: string, sep: char)
    ensures forall i :: 0 <= i < |Split(s, sep)| ==> sep !in Split(s, sep)[i]
    decreases |s|
  {
    if sep in s {
      var k := FirstIndex(s, sep);
      SplitRemovesSeparator(s[k + 1..], sep);
      assert sep !in s[..k];
    }
  }

  /** A first piece without separator is split off whole. */
  lemma SplitConcatFirst(x: string, y: string, sep: char)
    requires sep !in x
    ensures Split(x + [sep] + y, sep) == [x] + Split(y, sep)
  {
    var s := x + [sep] + y;
    forall i | 0 <= i < |x|
      ensures s[i] != sep
    {
      assert s[i] == x[i];
    }
    SplitAt(s, sep, |x|);
    assert s[..|x|] == x && s[|x| + 1..] == y;
  }

  /** Splitting "x" + sep + "y" splits x and y separately. */
  lemma {:induction false} SplitConcat(x: string, y: string, sep: char)
    ensures Split(x + [sep] + y, sep) == Split(x, sep) + Split(y, sep)
    decreases |x|
  {
    if sep !in x {
      SplitConcatFirst(x, y, sep);
    } else {
      var k := FirstIndex(x, sep);
      var s := x + [sep] + y;
      assert Split(s, sep) == [x[..k]] + Split(x[k + 1..] + [sep] + y, sep) by {
        forall i | 0 <= i <= k
          ensures s[i] == x[i]
        {
        }
        SplitAt(s, sep, k);
        assert s[..k] == x[..k];
        assert s[k + 1..] == x[k + 1..] + [sep] + y;
      }
      SplitConcat(x[k + 1..], y, sep);
      var a, b, c := [x[..k]], Split(x[k + 1..], sep), Split(y, sep);
      assert a + (b + c) == (a + b) + c;
    }
  }

  /** Joining pieces free of the separator and splitting again gives the pieces back. */
  lemma {:induction false} SplitJoin(pieces: seq<string>, sep: char)
    requires |pieces| >= 1
    requires forall i :: 0 <= i < |pieces| ==> sep !in pieces[i]
    ensures Split(Join(pieces, sep), sep) == pieces
  {
    if |pieces| == 1 {
      assert sep !in pieces[0];
      assert Split(pieces[0], sep) == [pieces[0]];
    } else {
      var rest := pieces[1..];
      assert forall i :: 0 <= i < |rest| ==> sep !in rest[i] by {
        forall i | 0 <= i < |rest|
          ensures sep !in rest[i]
        {
          assert rest[i] == pieces[i + 1];
        }
      }
      SplitJoin(rest, sep);
      assert Join(pieces, sep) == pieces[0] + [sep] + Join(rest, sep);
      assert sep !in pieces[0];
      SplitConcatFirst(pieces[0], Join(rest, sep), sep);
      assert [pieces[0]] + rest == pieces;
    }
  }

  /** No key or value can contain either separator. */
  predicate NoSeparators(p: Pair)
  {
    PairSeparator !in p.key && PairSeparator !in p.value &&
    KeyValueSeparator !in p.key && KeyValueSeparator !in p.value
  }

  /** A segment is accepted exactly when splitting it on '=' gives two parts. */
  predicate WellFormedSegment(segment: string)
  {
    |Split(segment, KeyValueSeparator)| == 2
  }

  function PairOf(segment: string): Pair
    requires WellFormedSegment(segment)
  {
    var keyAndValue := Split(segment, KeyValueSeparator);
    Pair(keyAndValue[0], keyAndValue[1])
  }

  /** The "key=value" text of one pair. */
  function Encode(p: Pair): string
  {
    p.key + [KeyValueSeparator] + p.value
  }

  /** The body whose parse is `pairs`: the encoded pairs joined by '&'. */
  function Serialize(pairs: seq<Pair>): string
  {
    Join(seq(|pairs|, i requires 0 <= i < |pairs| => Encode(pairs[i])), PairSeparator)
  }

  /** What ParseFormUrlEncodedContent returns or throws, for a body that may be null (None). */
  function Parse(content: Option<string>): (r: Result<seq<Pair>, ParseError>)
    ensures r == Failure(NullOrEmptyContent) <==> content.None? || content.value == []
    ensures content.Some? && content.value != [] ==>
      var segments := Split(content.value, PairSeparator);
      (r.Success? <==> forall i :: 0 <= i < |segments| ==> WellFormedSegment(segments[i]))
    ensures r.Success? ==>
      var segments := Split(content.value, PairSeparator);
      && |r.value| == |segments| == Occurrences(content.value, PairSeparator) + 1
      && forall i :: 0 <= i < |r.value| ==> Encode(r.value[i]) == segments[i] && NoSeparators(r.value[i])
  {
    if content.None? || content.value == [] then Failure(NullOrEmptyContent)
    else
      var segments := Split(content.value, PairSeparator);
      SplitCount(content.value, PairSeparator);
      SplitRemovesSeparator(content.value, PairSeparator);
      if forall i :: 0 <= i < |segments| ==> WellFormedSegment(segments[i]) then
        var pairs := seq(|segments|, i requires 0 <= i < |segments| => PairOf(segments[i]));
        assert forall i :: 0 <= i < |pairs| ==> Encode(pairs[i]) == segments[i] && NoSeparators(pairs[i]) by {
          forall i | 0 <= i < |pairs|
            ensures Encode(pairs[i]) == segments[i] && NoSeparators(pairs[i])
          {
            var keyAndValue := Split(segments[i], KeyValueSeparator);
            JoinSplit(segments[i], KeyValueSeparator);
            assert Join(keyAndValue, KeyValueSeparator) == keyAndValue[0] + [KeyValueSeparator] + keyAndValue[1];
            SplitKeepsAbsence(segments[i], KeyValueSeparator, PairSeparator);
            SplitRemovesSeparator(segments[i], KeyValueSeparator);
          }
        }
        Success(pairs)
      else Failure(MalformedContent)
  }

  /** ParseFormUrlEncodedContent (HttpContentParser.cs): the loop over the '&'-segments that
      appends one pair per segment and gives up on the first malformed one. */
  method ParseFormUrlEncodedContent(content: Option<string>) returns (r: Result<seq<Pair>, ParseError>)
    ensures r == Parse(content)
  {
    if content.None? || content.value == [] {
      return Failure(NullOrEmptyContent);
    }
    var coupleSplit := Split(content.value, PairSeparator);
    var collection: seq<Pair> := [];
    for i := 0 to |coupleSplit|
      invariant forall j :: 0 <= j < i ==> WellFormedSegment(coupleSplit[j])
      invariant |collection| == i
      invariant forall j :: 0 <= j < i ==> collection[j] == PairOf(coupleSplit[j])
    {
      var keyAndValue := Split(coupleSplit[i], KeyValueSeparator);
      if |keyAndValue| != 2 {
        return Failure(MalformedContent);
      }
      collection := collection + [Pair(keyAndValue[0], keyAndValue[1])];
    }
    assert collection == seq(|coupleSplit|, i requires 0 <= i < |coupleSplit| => PairOf(coupleSplit[i]));
    return Success(collection);
  }

  /** A segment is accepted exactly when it holds one '=': none (a bare key) and two or more
      ("a=b=c") are both rejected, and then so is the whole body. */
  lemma {:induction false} SegmentNeedsOneEquals(content: string)
    requires content != []
    ensures Parse(Some(content)).Success? ==>
      forall i :: 0 <= i < |Split(content, PairSeparator)| ==> Occurrences(Split(content, PairSeparator)[i], KeyValueSeparator) == 1
    ensures (forall i :: 0 <= i < |Split(content, PairSeparator)| ==> Occurrences(Split(content, PairSeparator)[i], KeyValueSeparator) == 1)
      ==> Parse(Some(content)).Success?
  {
    var segments := Split(content, PairSeparator);
    forall i | 0 <= i < |segments|
      ensures WellFormedSegment(segments[i]) <==> Occurrences(segments[i], KeyValueSeparator) == 1
    {
      SplitCount(segments[i], KeyValueSeparator);
    }
  }

  /** An empty segment has no '=' and so fails the whole parse. */
  lemma {:induction false} EmptySegmentMalformed(content: string, i: nat)
    requires content != []
    requires i < |Split(content, PairSeparator)| && Split(content, PairSeparator)[i] == []
    ensures Parse(Some(content)) == Failure(MalformedContent)
  {
    var empty: string := [];
    assert Split(empty, KeyValueSeparator) == [[]];
    assert !WellFormedSegment(Split(content, PairSeparator)[i]);
  }

  /** A doubled '&' makes an empty segment, which is malformed. */
  lemma {:induction false} DoubledSeparatorRejected(x: string, y: string)
    ensures Parse(Some(x + [PairSeparator] + [PairSeparator] + y)) == Failure(MalformedContent)
  {
    var content := x + [PairSeparator] + [PairSeparator] + y;
    assert content == x + [PairSeparator] + ([PairSeparator] + y);
    SplitConcat(x, [PairSeparator] + y, PairSeparator);
    SplitLeadingSeparator(y, PairSeparator);
    EmptySegmentMalformed(content, |Split(x, PairSeparator)|);
  }

  /** A trailing '&' makes an empty last segment, which is malformed. */
  lemma {:induction false} TrailingSeparatorRejected(x: string)
    ensures Parse(Some(x + [PairSeparator])) == Failure(MalformedContent)
  {
    var empty: string := [];
    var content := x + [PairSeparator];
    assert content == x + [PairSeparator] + empty;
    SplitConcat(x, empty, PairSeparator);
    EmptySegmentMalformed(content, |Split(x, PairSeparator)|);
  }

  /** A leading '&' makes an empty first segment, which is malformed. */
  lemma {:induction false} LeadingSeparatorRejected(y: string)
    ensures Parse(Some([PairSeparator] + y)) == Failure(MalformedContent)
  {
    SplitLeadingSeparator(y, PairSeparator);
    EmptySegmentMalformed([PairSeparator] + y, 0);
  }

  /** The text of a pair without separators splits back into its key and value. */
  lemma EncodeSplits(p: Pair)
    requires NoSeparators(p)
    ensures Split(Encode(p), KeyValueSeparator) == [p.key, p.value]
    ensures PairSeparator !in Encode(p)
  {
    SplitConcat(p.key, p.value, KeyValueSeparator);
    assert Split(p.key, KeyValueSeparator) == [p.key];
    assert Split(p.value, KeyValueSeparator) == [p.value];
  }

  /** Round trip: a non-empty list of pairs free of separators, serialised and parsed back,
      is returned unchanged (empty keys and values included). */
  lemma {:induction false} ParseSerialize(pairs: seq<Pair>)
    requires |pairs| >= 1
    requires forall i :: 0 <= i < |pairs| ==> NoSeparators(pairs[i])
    ensures Parse(Some(Serialize(pairs))) == Success(pairs)
  {
    var encoded := seq(|pairs|, i requires 0 <= i < |pairs| => Encode(pairs[i]));
    forall i | 0 <= i < |encoded|
      ensures PairSeparator !in encoded[i] && WellFormedSegment(encoded[i])
    {
      EncodeSplits(pairs[i]);
    }
    var content := Serialize(pairs);
    assert Split(content, PairSeparator) == encoded by {
      SplitJoin(encoded, PairSeparator);
    }
    assert content != [] by {
      assert KeyValueSeparator in encoded[0];
    }
    var r := Parse(Some(content));
    assert r.Success?;
    forall i | 0 <= i < |pairs|
      ensures r.value[i] == pairs[i]
    {
      EncodeSplits(pairs[i]);
      EncodeSplits(r.value[i]);
    }
    assert r.value == pairs;
  }

  /** The other direction: whatever Parse accepts is reproduced exactly by serialising the
      pairs it returns, so no character of the body is dropped or reordered. */
  lemma {:induction false} SerializeParse(content: string)
    requires Parse(Some(content)).Success?
    ensures Serialize(Parse(Some(content)).value) == content
  {
    var pairs := Parse(Some(content)).value;
    var encoded := seq(|pairs|, i requires 0 <= i < |pairs| => Encode(pairs[i]));
    assert encoded == Split(content, PairSeparator);
    JoinSplit(content, PairSeparator);
  }
}
