/** The state-number table and the form-id template of the form builder.
    The table maps a US state abbreviation to a four-digit code in order of
    statehood; Colorado keeps the code 0000. */
module FormIdUtils {
  import opened JsValues
  import opened JsStrings

  const StateCount: nat := 50

  /** Row `i` of the STATE_NUMBERS object literal, in source order. */
  function StateRow(i: nat): (string, string)
    requires i < StateCount
  {
    match i
    case 0 => ("DE", "0001")
    case 1 => ("PA", "0002")
    case 2 => ("NJ", "0003")
    case 3 => ("GA", "0004")
    case 4 => ("CT", "0005")
    case 5 => ("MA", "0006")
    case 6 => ("MD", "0007")
    case 7 => ("SC", "0008")
    case 8 => ("NH", "0009")
    case 9 => ("VA", "0010")
    case 10 => ("NY", "0011")
    case 11 => ("NC", "0012")
    case 12 => ("RI", "0013")
    case 13 => ("VT", "0014")
    case 14 => ("KY", "0015")
    case 15 => ("TN", "0016")
    case 16 => ("OH", "0017")
    case 17 => ("LA", "0018")
    case 18 => ("IN", "0019")
    case 19 => ("MS", "0020")
    case 20 => ("IL", "0021")
    case 21 => ("AL", "0022")
    case 22 => ("ME", "0023")
    case 23 => ("MO", "0024")
    case 24 => ("AR", "0025")
    case 25 => ("MI", "0026")
    case 26 => ("FL", "0027")
    case 27 => ("TX", "0028")
    case 28 => ("IA", "0029")
    case 29 => ("WI", "0030")
    case 30 => ("CA", "0031")
    case 31 => ("MN", "0032")
    case 32 => ("OR", "0033")
    case 33 => ("KS", "0034")
    case 34 => ("WV", "0035")
    case 35 => ("NV", "0036")
    case 36 => ("NE", "0037")
    case 37 => ("CO", "0000")
    case 38 => ("ND", "0039")
    case 39 => ("SD", "0040")
    case 40 => ("MT", "0041")
    case 41 => ("WA", "0042")
    case 42 => ("ID", "0043")
    case 43 => ("WY", "0044")
    case 44 => ("UT", "0045")
    case 45 => ("OK", "0046")
    case 46 => ("NM", "0047")
    case 47 => ("AZ", "0048")
    case 48 => ("AK", "0049")
    case _ => ("HI", "0050")
  }

  /** The rows of the table as a sequence. */
  function StateTable(): (t: seq<(string, string)>)
    ensures |t| == StateCount
    ensures forall i :: 0 <= i < StateCount ==> t[i] == StateRow(i)
  {
    seq(StateCount, i requires 0 <= i < StateCount => StateRow(i))
  }

  /** Entry `j` of the US_STATES list offered by the locale menu. */
  function UsState(j: nat): string
    requires j < StateCount
  {
    match j
    case 0 => "AL"
    case 1 => "AK"
    case 2 => "AZ"
    case 3 => "AR"
    case 4 => "CA"
    case 5 => "CO"
    case 6 => "CT"
    case 7 => "DE"
    case 8 => "FL"
    case 9 => "GA"
    case 10 => "HI"
    case 11 => "ID"
    case 12 => "IL"
    case 13 => "IN"
    case 14 => "IA"
    case 15 => "KS"
    case 16 => "KY"
    case 17 => "LA"
    case 18 => "ME"
    case 19 => "MD"
    case 20 => "MA"
    case 21 => "MI"
    case 22 => "MN"
    case 23 => "MS"
    case 24 => "MO"
    case 25 => "MT"
    case 26 => "NE"
    case 27 => "NV"
    case 28 => "NH"
    case 29 => "NJ"
    case 30 => "NM"
    case 31 => "NY"
    case 32 => "NC"
    case 33 => "ND"
    case 34 => "OH"
    case 35 => "OK"
    case 36 => "OR"
    case 37 => "PA"
    case 38 => "RI"
    case 39 => "SC"
    case 40 => "SD"
    case 41 => "TN"
    case 42 => "TX"
    case 43 => "UT"
    case 44 => "VT"
    case 45 => "VA"
    case 46 => "WA"
    case 47 => "WV"
    case 48 => "WI"
    case _ => "WY"
  }

  const UsStates: seq<string> := seq(StateCount, j requires 0 <= j < StateCount => UsState(j))

  /** The table row that holds the menu's entry `j`. */
  function RowOfUsState(j: nat): (i: nat)
    requires j < StateCount
    ensures i < StateCount
  {
    match j
    case 0 => 21
    case 1 => 48
    case 2 => 47
    case 3 => 24
    case 4 => 30
    case 5 => 37
    case 6 => 4
    case 7 => 0
    case 8 => 26
    case 9 => 3
    case 10 => 49
    case 11 => 42
    case 12 => 20
    case 13 => 18
    case 14 => 28
    case 15 => 33
    case 16 => 14
    case 17 => 17
    case 18 => 22
    case 19 => 6
    case 20 => 5
    case 21 => 25
    case 22 => 31
    case 23 => 19
    case 24 => 23
    case 25 => 40
    case 26 => 36
    case 27 => 35
    case 28 => 8
    case 29 => 2
    case 30 => 46
    case 31 => 10
    case 32 => 11
    case 33 => 38
    case 34 => 16
    case 35 => 45
    case 36 => 32
    case 37 => 1
    case 38 => 12
    case 39 => 7
    case 40 => 39
    case 41 => 15
    case 42 => 27
    case 43 => 44
    case 44 => 13
    case 45 => 9
    case 46 => 41
    case 47 => 34
    case 48 => 29
    case _ => 43
  }

  /** A number computed from a two-letter key; the table's keys all get
      different numbers. */
  function KeyCode(k: string): int {
    if |k| == 2 then 26 * (k[0] as int) + k[1] as int else -1
  }

  predicate FourDigits(s: string) {
    |s| == 4 && IsDigit(s[0]) && IsDigit(s[1]) && IsDigit(s[2]) && IsDigit(s[3])
  }

  function FourDigitValue(s: string): nat
    requires FourDigits(s)
  {
    1000 * DigitValue(s[0]) + 100 * DigitValue(s[1]) + 10 * DigitValue(s[2]) + DigitValue(s[3])
  }

  /** The code of row `i`: its statehood rank, except Colorado's 0000. */
  function RowCode(i: nat): nat {
    if i == 37 then 0 else i + 1
  }

  /** Every value in the table is four decimal digits, and row `i` holds the
      code `RowCode(i)`. */
  lemma StateRowValues(i: nat)
    requires i < StateCount
    ensures FourDigits(StateRow(i).1) && FourDigitValue(StateRow(i).1) == RowCode(i)
  {
    if i < 17 {
      StateRowValuesFirst(i);
    } else if i < 34 {
      StateRowValuesMiddle(i);
    } else {
      StateRowValuesLast(i);
    }
  }

  lemma StateRowValuesFirst(i: nat)
    requires i < 17
    ensures FourDigits(StateRow(i).1) && FourDigitValue(StateRow(i).1) == RowCode(i)
  {
  }

  lemma StateRowValuesMiddle(i: nat)
    requires 17 <= i < 34
    ensures FourDigits(StateRow(i).1) && FourDigitValue(StateRow(i).1) == RowCode(i)
  {
  }

  lemma StateRowValuesLast(i: nat)
    requires 34 <= i < StateCount
    ensures FourDigits(StateRow(i).1) && FourDigitValue(StateRow(i).1) == RowCode(i)
  {
  }

  /** No two rows of the table share a key. */
  lemma StateRowKeysDistinct(i: nat, j: nat)
    requires i < j < StateCount
    ensures StateRow(i).0 != StateRow(j).0
  {
    StateRowKeyCodesDistinct(i, j);
  }

  lemma StateRowKeyCodesDistinct(i: nat, j: nat)
    requires i < j < StateCount
    ensures KeyCode(StateRow(i).0) != KeyCode(StateRow(j).0)
  {
    RowOfKeyCodeOfRow(i);
    RowOfKeyCodeOfRow(j);
  }

  /** The row whose key has code `c`, or -1. */
  function RowOfKeyCode(c: int): int {
    match c
    case 1837 => 0
    case 2145 => 1
    case 2102 => 2
    case 1911 => 3
    case 1826 => 4
    case 2067 => 5
    case 2070 => 6
    case 2225 => 7
    case 2100 => 8
    case 2301 => 9
    case 2117 => 10
    case 2095 => 11
    case 2205 => 12
    case 2320 => 13
    case 2039 => 14
    case 2262 => 15
    case 2126 => 16
    case 2041 => 17
    case 1976 => 18
    case 2085 => 19
    case 1974 => 20
    case 1766 => 21
    case 2071 => 22
    case 2081 => 23
    case 1772 => 24
    case 2075 => 25
    case 1896 => 26
    case 2272 => 27
    case 1963 => 28
    case 2335 => 29
    case 1807 => 30
    case 2080 => 31
    case 2136 => 32
    case 2033 => 33
    case 2348 => 34
    case 2114 => 35
    case 2097 => 36
    case 1821 => 37
    case 2096 => 38
    case 2226 => 39
    case 2086 => 40
    case 2327 => 41
    case 1966 => 42
    case 2351 => 43
    case 2294 => 44
    case 2129 => 45
    case 2105 => 46
    case 1780 => 47
    case 1765 => 48
    case 1945 => 49
    case _ => -1
  }

  lemma RowOfKeyCodeOfRow(i: nat)
    requires i < StateCount
    ensures RowOfKeyCode(KeyCode(StateRow(i).0)) == i
  {
    if i < 25 {
      RowOfKeyCodeOfFirstRows(i);
    } else {
      RowOfKeyCodeOfLastRows(i);
    }
  }

  lemma RowOfKeyCodeOfFirstRows(i: nat)
    requires i < 25
    ensures RowOfKeyCode(KeyCode(StateRow(i).0)) == i
  {
  }

  lemma RowOfKeyCodeOfLastRows(i: nat)
    requires 25 <= i < StateCount
    ensures RowOfKeyCode(KeyCode(StateRow(i).0)) == i
  {
  }

  /** No two rows of the table share a value. */
  lemma StateRowValuesDistinct(i: nat, j: nat)
    requires i < j < StateCount
    ensures StateRow(i).1 != StateRow(j).1
  {
    StateRowValues(i);
    StateRowValues(j);
  }

  /** Every entry of the locale menu is a key of the table. */
  lemma UsStateRow(j: nat)
    requires j < StateCount
    ensures StateRow(RowOfUsState(j)).0 == UsState(j)
  {
  }

  /** No two entries of `t` share a key. */
  predicate DistinctKeys(t: seq<(string, string)>) {
    forall i, j :: 0 <= i < j < |t| ==> t[i].0 != t[j].0
  }

  /** The value of the first entry of `t` at or after `i` whose key is `key`. */
  function Lookup(t: seq<(string, string)>, key: string, i: nat): Option<string>
    requires i <= |t|
    decreases |t| - i
  {
    if i == |t| then None
    else if t[i].0 == key then Some(t[i].1)
    else Lookup(t, key, i + 1)
  }

  /** With distinct keys, a lookup finds the one entry that has the key. */
  lemma {:induction false} LookupFound(t: seq<(string, string)>, key: string, i: nat, j: nat)
    requires DistinctKeys(t)
    requires i <= j < |t| && t[j].0 == key
    ensures Lookup(t, key, i) == Some(t[j].1)
    decreases j - i
  {
    if i < j {
      assert t[i].0 != t[j].0;
      LookupFound(t, key, i + 1, j);
    }
  }

  /** A successful lookup comes from an entry with that key. */
  lemma {:induction false} LookupEntry(t: seq<(string, string)>, key: string, i: nat) returns (j: nat)
    requires i <= |t| && Lookup(t, key, i).Some?
    ensures i <= j < |t| && t[j].0 == key && Lookup(t, key, i) == Some(t[j].1)
    decreases |t| - i
  {
    if t[i].0 == key {
      j := i;
    } else {
      j := LookupEntry(t, key, i + 1);
    }
  }

  lemma StateTableRows()
    ensures DistinctKeys(StateTable())
  {
    forall i, j | 0 <= i < j < |StateTable()|
      ensures StateTable()[i].0 != StateTable()[j].0
    {
      StateRowKeysDistinct(i, j);
    }
  }

  /** `STATE_NUMBERS[locale]`: the value of the row whose key is `locale`,
      or `None` (undefined) when no row has that key. */
  function StateNumber(locale: string): Option<string> {
    Lookup(StateTable(), locale, 0)
  }

  /** Looking up the key of any row gives that row's value. */
  lemma StateNumberOfRow(j: nat)
    requires j < StateCount
    ensures StateNumber(StateRow(j).0) == Some(StateRow(j).1)
  {
    StateTableRows();
    LookupFound(StateTable(), StateRow(j).0, 0, j);
  }

  /** A successful lookup comes from a row with that key. */
  lemma StateNumberRow(locale: string) returns (j: nat)
    requires StateNumber(locale).Some?
    ensures j < StateCount && StateRow(j).0 == locale && StateNumber(locale) == Some(StateRow(j).1)
  {
    StateTableRows();
    j := LookupEntry(StateTable(), locale, 0);
  }

  /** A lookup succeeds exactly for the table's keys, and what it finds is
      four decimal digits. */
  lemma StateNumberSpec(locale: string)
    ensures StateNumber(locale).Some? <==> exists j :: 0 <= j < StateCount && StateRow(j).0 == locale
    ensures StateNumber(locale).Some? ==> FourDigits(StateNumber(locale).value)
  {
    if StateNumber(locale).Some? {
      var j := StateNumberRow(locale);
      StateRowValues(j);
    }
    if exists j :: 0 <= j < StateCount && StateRow(j).0 == locale {
      var j :| 0 <= j < StateCount && StateRow(j).0 == locale;
      StateNumberOfRow(j);
    }
  }

  /** Different states have different numbers. */
  lemma StateNumbersDistinct(a: string, b: string)
    requires a != b && StateNumber(a).Some? && StateNumber(b).Some?
    ensures StateNumber(a) != StateNumber(b)
  {
    var i := StateNumberRow(a);
    var j := StateNumberRow(b);
    if i < j {
      StateRowValuesDistinct(i, j);
    } else if j < i {
      StateRowValuesDistinct(j, i);
    }
  }

  lemma ColoradoIsZero()
    ensures StateNumber("CO") == Some("0000")
  {
    StateNumberOfRow(37);
  }

  lemma CaliforniaIs0031()
    ensures StateNumber("CA") == Some("0031")
  {
    StateNumberOfRow(30);
  }

  /** The code 0038, Colorado's place in statehood order, is given to no state. */
  lemma NoStateIs0038(locale: string)
    ensures StateNumber(locale) != Some("0038")
  {
    if StateNumber(locale).Some? {
      var j := StateNumberRow(locale);
      StateRowValues(j);
      assert FourDigitValue("0038") == 38;
    }
  }

  /** Every entry of the locale menu has a state number. */
  lemma UsStatesHaveNumbers(j: nat)
    requires j < StateCount
    ensures StateNumber(UsState(j)) == Some(StateRow(RowOfUsState(j)).1)
  {
    UsStateRow(j);
    StateNumberOfRow(RowOfUsState(j));
  }

  /** The id used when no form id has been derived. */
  const ZeroFormId: string := "00000000-0000-0000-0000-000000000000"

  /** `formatFormId`: the state number in the second group of an all-zero id. */
  function FormatFormId(stateNumber: string): (r: string)
    ensures |r| == |stateNumber| + 32
    ensures r[9..9 + |stateNumber|] == stateNumber
    ensures r[..9] == ZeroFormId[..9] && r[9 + |stateNumber|..] == ZeroFormId[13..]
  {
    "00000000-" + stateNumber + "-0000-0000-000000000000"
  }

  /** The state number a form id carries: what lies between the first nine
      and the last twenty-three characters. */
  function StateNumberOf(formId: string): string
    requires |formId| >= 32
  {
    formId[9..|formId| - 23]
  }

  lemma FormatFormIdRoundTrip(stateNumber: string)
    ensures StateNumberOf(FormatFormId(stateNumber)) == stateNumber
  {
  }

  /** Distinct state numbers give distinct form ids. */
  lemma FormatFormIdInjective(a: string, b: string)
    requires a != b
    ensures FormatFormId(a) != FormatFormId(b)
  {
    FormatFormIdRoundTrip(a);
    FormatFormIdRoundTrip(b);
  }

  predicate IsHexDigit(c: char) {
    IsDigit(c) || 'a' <= c <= 'f'
  }

  /** The 8-4-4-4-12 textual form of a UUID (section 3 of RFC 4122). */
  predicate UuidShaped(r: string) {
    && |r| == 36
    && (forall i :: 0 <= i < 36 && (i == 8 || i == 13 || i == 18 || i == 23) ==> r[i] == '-')
    && (forall i :: 0 <= i < 36 && i != 8 && i != 13 && i != 18 && i != 23 ==> IsHexDigit(r[i]))
  }

  /** A four-digit state number yields a 36-character UUID-shaped id. */
  lemma FormatFormIdShape(stateNumber: string)
    requires FourDigits(stateNumber)
    ensures UuidShaped(FormatFormId(stateNumber))
  {
    var r := FormatFormId(stateNumber);
    forall i | 0 <= i < 36 && i != 8 && i != 13 && i != 18 && i != 23
      ensures IsHexDigit(r[i])
    {
      if 9 <= i < 13 {
        assert r[i] == stateNumber[i - 9];
      }
    }
  }

  const CaliforniaExample: string := "00000000-0031-0000-0000-000000000000"

  /** An id with the template's prefix and suffix around `stateNumber` is
      the id `FormatFormId` makes of it. */
  lemma FormatFormIdOf(stateNumber: string, id: string)
    requires |id| == |stateNumber| + 32
    requires id[..9] == ZeroFormId[..9] && id[9..9 + |stateNumber|] == stateNumber && id[9 + |stateNumber|..] == ZeroFormId[13..]
    ensures FormatFormId(stateNumber) == id
  {
    var r := FormatFormId(stateNumber);
    var n := 9 + |stateNumber|;
    assert r == r[..9] + r[9..n] + r[n..];
    assert id == id[..9] + id[9..n] + id[n..];
  }

  lemma CaliforniaAroundNumber()
    ensures CaliforniaExample[..9] == ZeroFormId[..9]
    ensures CaliforniaExample[13..] == ZeroFormId[13..]
  {
    assert forall k :: 0 <= k < 36 && !(9 <= k < 13) ==> CaliforniaExample[k] == ZeroFormId[k];
  }

  /** California's form id, as the form builder shows it. */
  lemma CaliforniaFormId()
    ensures FormatFormId("0031") == CaliforniaExample
  {
    CaliforniaAroundNumber();
    assert CaliforniaExample[9] == '0' && CaliforniaExample[10] == '0' && CaliforniaExample[11] == '3' && CaliforniaExample[12] == '1';
    assert CaliforniaExample[9..13] == "0031";
    FormatFormIdOf("0031", CaliforniaExample);
  }

  /** The fallback state number 0000 gives the all-zero id. */
  lemma ZeroStateFormId()
    ensures FormatFormId("0000") == ZeroFormId
  {
    assert ZeroFormId[9] == '0' && ZeroFormId[10] == '0' && ZeroFormId[11] == '0' && ZeroFormId[12] == '0';
    assert ZeroFormId[9..13] == "0000";
    FormatFormIdOf("0000", ZeroFormId);
  }
}
