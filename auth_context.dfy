/** The name splitting of the authentication provider: a full name is
    trimmed and cut at single spaces into a first name and the rest. */
module AuthContext {
  import opened JsText

  datatype Name = Name(firstName: string, lastName: string)

  /** `splitFullName`. */
  function SplitFullName(fullName: string): Name
  {
    var parts := Split(Trim(fullName), ' ');
    Name(parts[0], if |parts| > 1 then Join(parts[1..], ' ') else "")
  }

  /** The trimmed name splits into more than one part exactly when it holds
      a space. */
  lemma {:induction false} SeveralPartsIffSpace(s: string)
    ensures |Split(s, ' ')| > 1 <==> ' ' in s
  {
    SplitHead(s, ' ');
    if ' ' in s {
      var k := IndexOf(s, ' ');
      assert Split(s, ' ') == [s[..k]] + Split(s[k + 1..], ' ');
    }
  }

  /** The first name is the trimmed name up to its first space, and holds no
      space; the last name is empty exactly when the trimmed name has no
      space, and otherwise it is the rest after that space. */
  lemma SplitFullNameSpec(fullName: string)
    ensures var t := Trim(fullName);
      var n := SplitFullName(fullName);
      && ' ' !in n.firstName
      && (' ' !in t ==> n == Name(t, ""))
      && (' ' in t ==> n.firstName == t[..IndexOf(t, ' ')] && n.lastName == t[IndexOf(t, ' ') + 1..])
  {
    var t := Trim(fullName);
    var parts := Split(t, ' ');
    SplitHead(t, ' ');
    SeveralPartsIffSpace(t);
    if ' ' in t {
      var k := IndexOf(t, ' ');
      assert parts == [t[..k]] + Split(t[k + 1..], ' ');
      assert parts[1..] == Split(t[k + 1..], ' ');
      JoinSplit(t[k + 1..], ' ');
    }
  }

  /** The round trip: with a last name, first name, a space and last name
      give the trimmed full name back; without one, the first name is the
      trimmed full name. */
  lemma SplitFullNameRoundTrip(fullName: string)
    ensures var n := SplitFullName(fullName);
      if n.lastName != "" || ' ' in Trim(fullName)
      then n.firstName + " " + n.lastName == Trim(fullName)
      else n.firstName == Trim(fullName)
  {
    var t := Trim(fullName);
    SplitFullNameSpec(fullName);
    if ' ' in t {
      RejoinAtSpace(t, IndexOf(t, ' '));
    }
  }

  lemma RejoinAtSpace(t: string, k: nat)
    requires k < |t| && t[k] == ' '
    ensures t[..k] + " " + t[k + 1..] == t
  {
    assert " " == [t[k]];
    assert t[..k] + [t[k]] == t[..k + 1];
  }
}
