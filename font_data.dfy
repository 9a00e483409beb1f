/**
 * The reader of the font's comma-separated data resource: getNext reads
 * characters until a comma, a newline or the end of the stream.
 */
module FontData {
  predicate IsSeparator(c: char) { c == ',' || c == '\n' }

  predicate NoSeparator(s: seq<char>)
  {
    forall i :: 0 <= i < |s| ==> !IsSeparator(s[i])
  }

  /**
   * token is the field that starts at pos and next the position after it:
   * either the field runs to the end of the stream, or it ends at a
   * separator, which is consumed but not part of the field.
   */
  predicate IsNextField(s: seq<char>, pos: nat, token: seq<char>, next: nat)
    requires pos <= |s|
  {
    && pos <= next <= |s|
    && NoSeparator(token)
    && ((next == |s| && token == s[pos..])
        || (pos < next && IsSeparator(s[next - 1]) && token == s[pos..next - 1]))
  }

  /** Reads the field at pos; the stream position is passed in and returned. */
  method GetNext(s: seq<char>, pos: nat) returns (token: seq<char>, next: nat)
    requires pos <= |s|
    ensures IsNextField(s, pos, token, next)
  {
    token := [];
    next := pos;
    while next < |s|
      invariant pos <= next <= |s|
      invariant token == s[pos..next]
      invariant NoSeparator(token)
    {
      var c := s[next];
      next := next + 1;
      if IsSeparator(c) {
        return;
      }
      token := token + [c];
    }
  }

  /** There is only one field at a position. */
  lemma NextFieldUnique(s: seq<char>, pos: nat, t1: seq<char>, n1: nat, t2: seq<char>, n2: nat)
    requires pos <= |s|
    requires IsNextField(s, pos, t1, n1) && IsNextField(s, pos, t2, n2)
    ensures t1 == t2 && n1 == n2
  {
    FieldChars(s, pos, t1, n1);
    FieldChars(s, pos, t2, n2);
  }

  /**
   * What a field says about the stream: no separator before its last
   * position, a separator there unless the stream ended, and a field that
   * runs to the end of the stream has no separator at the end.
   */
  lemma FieldChars(s: seq<char>, pos: nat, token: seq<char>, next: nat)
    requires pos <= |s| && IsNextField(s, pos, token, next)
    ensures forall k :: pos <= k < next - 1 ==> !IsSeparator(s[k])
    ensures next < |s| ==> pos < next && IsSeparator(s[next - 1]) && token == s[pos..next - 1]
    ensures pos < next && token == s[pos..] ==> !IsSeparator(s[next - 1])
  {
    forall k | pos <= k < next - 1 ensures !IsSeparator(s[k]) {
      assert s[k] == token[k - pos];
    }
    if pos < next && token == s[pos..] {
      assert s[next - 1] == token[next - 1 - pos];
    }
  }

  /**
   * Writing a field and a separator and reading it back gives the field, and
   * the reader stops right after the separator.
   */
  lemma ReadsWrittenField(before: seq<char>, field: seq<char>, sep: char, after: seq<char>)
    requires NoSeparator(field) && IsSeparator(sep)
    ensures var s := before + field + [sep] + after;
            IsNextField(s, |before|, field, |before| + |field| + 1)
  {
    var s := before + field + [sep] + after;
    assert s[|before|..|before| + |field|] == field;
    assert s[|before| + |field|] == sep;
  }

  /** At the end of the stream the field is empty, which ends the key-value loop. */
  lemma EmptyAtEnd(s: seq<char>, token: seq<char>, next: nat)
    requires IsNextField(s, |s|, token, next)
    ensures token == [] && next == |s|
  {
  }
}
