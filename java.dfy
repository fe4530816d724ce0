/** The pieces of the Java platform the template leans on: nullable String
    references, the emptiness test of its string utility, and the ASCII part
    of String.toLowerCase and String.equalsIgnoreCase. */
module Java {

  datatype Option<+T> = None | Some(value: T)

  /** The exceptions the template lets escape to its caller. */
  datatype JavaException = IllegalArgumentException | SdkClientError | NullPointerException

  /** How a Java method ends: it returns a value or throws. */
  datatype Outcome<T> = Normal(value: T) | Raised(exception: JavaException)

  /** A Java String reference: null, or a sequence of characters. */
  datatype JString = Null | Str(value: string)

  /** What StringBuilder.append writes for a String argument: the four
      characters "null" when the reference is null. */
  function AppendText(s: JString): (t: string)
    ensures s.Str? ==> t == s.value
    ensures s.Null? ==> t == "null"
  {
    match s
    case Null => "null"
    case Str(v) => v
  }

  /** The characters of a string reference, none for null; used past the
      template's emptiness guards, where no reference is null. */
  function Contents(s: JString): (t: string)
    ensures s.Str? ==> t == s.value
    ensures s.Null? ==> t == []
  {
    if s.Null? then [] else s.value
  }

  /** StrUtil.isEmpty: the reference is null or the string has no characters. */
  predicate StrIsEmpty(s: JString) {
    s.Null? || s.value == []
  }

  predicate IsUpper(c: char) {
    'A' <= c <= 'Z'
  }

  predicate IsLower(c: char) {
    'a' <= c <= 'z'
  }

  /** Character.toLowerCase restricted to ASCII letters. */
  function ToLower(c: char): (d: char)
    ensures !IsUpper(d)
    ensures IsUpper(c) ==> IsLower(d)
    ensures !IsUpper(c) ==> d == c
  {
    if IsUpper(c) then (c as int + 32) as char else c
  }

  /** Character.toUpperCase restricted to ASCII letters. */
  function ToUpper(c: char): (d: char)
    ensures !IsLower(d)
    ensures IsLower(c) ==> IsUpper(d)
    ensures !IsLower(c) ==> d == c
  {
    if IsLower(c) then (c as int - 32) as char else c
  }

  /** String.toLowerCase on ASCII letters: every character mapped on its own. */
  function Lower(s: string): (r: string)
    ensures |r| == |s|
    ensures forall i :: 0 <= i < |s| ==> r[i] == ToLower(s[i])
  {
    if s == [] then [] else [ToLower(s[0])] + Lower(s[1..])
  }

  predicate NoUpper(s: string) {
    forall i :: 0 <= i < |s| ==> !IsUpper(s[i])
  }

  /** The per-character test of String.regionMatches with ignoreCase set. */
  predicate CharsEqualIgnoreCase(a: char, b: char) {
    a == b || ToUpper(a) == ToUpper(b) || ToLower(a) == ToLower(b)
  }

  /** String.equalsIgnoreCase between two non-null strings. */
  predicate EqualsIgnoreCase(a: string, b: string) {
    |a| == |b| && forall i :: 0 <= i < |a| ==> CharsEqualIgnoreCase(a[i], b[i])
  }

  lemma CharsEqualIgnoreCaseIffSameLower(a: char, b: char)
    ensures CharsEqualIgnoreCase(a, b) <==> ToLower(a) == ToLower(b)
  {
  }

  /** Two strings are equal ignoring case exactly when their lower-case forms coincide. */
  lemma EqualsIgnoreCaseIffSameLower(a: string, b: string)
    ensures EqualsIgnoreCase(a, b) <==> Lower(a) == Lower(b)
  {
    if EqualsIgnoreCase(a, b) {
      forall i | 0 <= i < |a| ensures Lower(a)[i] == Lower(b)[i] {
        CharsEqualIgnoreCaseIffSameLower(a[i], b[i]);
      }
    }
    if Lower(a) == Lower(b) {
      forall i | 0 <= i < |a| ensures CharsEqualIgnoreCase(a[i], b[i]) {
        assert Lower(a)[i] == Lower(b)[i];
        CharsEqualIgnoreCaseIffSameLower(a[i], b[i]);
      }
    }
  }

  /** Lower-casing leaves no upper-case letter and is the identity exactly on
      strings that have none. */
  lemma LowerFixesExactlyNoUpper(s: string)
    ensures NoUpper(Lower(s))
    ensures Lower(s) == s <==> NoUpper(s)
  {
    if NoUpper(s) {
      assert forall i :: 0 <= i < |s| ==> Lower(s)[i] == s[i];
    }
  }

  /** The lower-case form is the only string without upper-case letters that
      equals the input ignoring case. */
  lemma LowerIsUniqueCaselessMatch(s: string, t: string)
    requires NoUpper(t) && EqualsIgnoreCase(t, s)
    ensures t == Lower(s)
  {
    EqualsIgnoreCaseIffSameLower(t, s);
    LowerFixesExactlyNoUpper(t);
  }
}
