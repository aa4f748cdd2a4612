/**
  The check-name parser of src/poll.ts: the raw `checkNames` input is a single
  string of names separated by commas, used verbatim (no trimming).
 */
module CheckNames {

  const COMMA: char := ','

  /** Number of commas in `s`. */
  function CountCommas(s: string): nat
  {
    if s == [] then 0 else (if s[0] == COMMA then 1 else 0) + CountCommas(s[1..])
  }

  /**
    The segments of `s` between commas, as JavaScript's `s.split(',')` gives
    them: one more segment than there are commas, none of them holding a comma.
   */
  function Split(s: string): (parts: seq<string>)
    ensures |parts| == CountCommas(s) + 1
    ensures forall i :: 0 <= i < |parts| ==> COMMA !in parts[i]
  {
    if s == [] then [""]
    else
      var rest := Split(s[1..]);
      if s[0] == COMMA then [""] + rest
      else [[s[0]] + rest[0]] + rest[1..]
  }

  /** The parts glued together with a comma between neighbours (`parts.join(',')`). */
  function Join(parts: seq<string>): string
  {
    if |parts| == 0 then ""
    else if |parts| == 1 then parts[0]
    else parts[0] + [COMMA] + Join(parts[1..])
  }

  /**
    `checkNamesAsList`: the empty input gives no names, an input without a
    comma gives itself, any other input its comma-separated segments.
   */
  function CheckNamesAsList(input: string): (names: seq<string>)
    ensures input == "" ==> names == []
    ensures input != "" && COMMA !in input ==> names == [input]
    ensures input != "" ==> |names| == CountCommas(input) + 1 && Join(names) == input
    ensures forall i :: 0 <= i < |names| ==> COMMA !in names[i]
  {
    if input == "" then []
    else if COMMA !in input then NoCommaSplit(input); [input]
    else SplitJoin(input); Split(input)
  }

  /** Splitting and joining again gives back the string. */
  lemma {:induction false} SplitJoin(s: string)
    ensures Join(Split(s)) == s
  {
    if s != [] {
      var rest := Split(s[1..]);
      SplitJoin(s[1..]);
      if s[0] == COMMA {
        assert ([""] + rest)[1..] == rest;
        assert Join(Split(s)) == "" + [COMMA] + s[1..];
      } else if |rest| == 1 {
        assert Join(Split(s)) == [s[0]] + rest[0];
      } else {
        var parts := [[s[0]] + rest[0]] + rest[1..];
        assert parts[1..] == rest[1..];
        assert Join(rest) == rest[0] + [COMMA] + Join(rest[1..]);
        assert Join(parts) == [s[0]] + rest[0] + [COMMA] + Join(rest[1..]);
      }
      assert s == [s[0]] + s[1..];
    }
  }

  /** A comma-free prefix is glued onto the first segment of what follows it. */
  lemma {:induction false} SplitAfterPrefix(p: string, s: string)
    requires COMMA !in p
    ensures Split(p + s) == [p + Split(s)[0]] + Split(s)[1..]
  {
    if p == [] {
      assert p + s == s;
      assert p + Split(s)[0] == Split(s)[0];
      assert [Split(s)[0]] + Split(s)[1..] == Split(s);
    } else {
      SplitAfterPrefix(p[1..], s);
      assert p + s == [p[0]] + (p[1..] + s);
      SplitCons(p[0], p[1..] + s);
      assert [p[0]] + (p[1..] + Split(s)[0]) == p + Split(s)[0];
    }
  }

  /** A character other than a comma is glued onto the first segment of what follows it. */
  lemma SplitCons(c: char, s: string)
    requires c != COMMA
    ensures Split([c] + s) == [[c] + Split(s)[0]] + Split(s)[1..]
  {
    assert ([c] + s)[1..] == s;
  }

  /** A string without a comma is its own single segment. */
  lemma NoCommaSplit(s: string)
    requires COMMA !in s
    ensures Split(s) == [s]
  {
    SplitAfterPrefix(s, "");
    assert s + "" == s;
  }

  /** Joining comma-free parts and splitting again gives back the parts. */
  lemma {:induction false} JoinSplit(parts: seq<string>)
    requires |parts| >= 1
    requires forall i :: 0 <= i < |parts| ==> COMMA !in parts[i]
    ensures Split(Join(parts)) == parts
  {
    if |parts| == 1 {
      NoCommaSplit(parts[0]);
    } else {
      var tail := Join(parts[1..]);
      JoinSplit(parts[1..]);
      SplitAfterPrefix(parts[0], [COMMA] + tail);
      assert ([COMMA] + tail)[1..] == tail;
      assert Split([COMMA] + tail) == [""] + parts[1..];
      assert parts[0] + [COMMA] + tail == parts[0] + ([COMMA] + tail);
      assert parts[0] + "" == parts[0];
      assert [parts[0]] + parts[1..] == parts;
    }
  }

  /**
    The no-comma shortcut of `checkNamesAsList` agrees with splitting: on every
    non-empty input the parser is exactly `split(',')`.
   */
  lemma CheckNamesAsListIsSplit(input: string)
    requires input != ""
    ensures CheckNamesAsList(input) == Split(input)
  {
    if COMMA !in input {
      NoCommaSplit(input);
    }
  }

  /**
    The parse of a non-empty input is the only comma-free list of names that
    joins back to it.
   */
  lemma ParseIsUnique(input: string, names: seq<string>)
    requires input != ""
    requires |names| >= 1 && forall i :: 0 <= i < |names| ==> COMMA !in names[i]
    ensures Join(names) == input <==> CheckNamesAsList(input) == names
  {
    CheckNamesAsListIsSplit(input);
    if Join(names) == input {
      JoinSplit(names);
    }
  }
}
