/**
 The provider's status vocabulary and its mapping to the platform's own statuses.
 */
module ProviderStatus {
  import opened Wrappers

  datatype TxStatus = Pending | Processing | Success | Failed | Reversed | Refunded | Expired

  const SUCCESS_WORDS: seq<string> := ["SUCCESS", "SUCCESSFUL", "SETTLED", "COMPLETED", "PAID", "ACCEPTED"]
  const PROCESSING_WORDS: seq<string> := ["PROCESSING", "IN_PROGRESS", "ONGOING"]
  const FAILED_WORDS: seq<string> := ["FAILED", "REJECTED", "CANCELLED", "CANCELED", "ERROR"]
  const EXPIRED_WORDS: seq<string> := ["EXPIRED", "TIMEOUT"]

  /** Statuses that a later identical record leaves alone. */
  predicate Final(status: TxStatus) {
    status.Success? || status.Failed? || status.Reversed? || status.Refunded?
  }

  /** Statuses that return a payout's debit. */
  predicate TerminalFail(status: TxStatus) {
    status.Failed? || status.Reversed? || status.Refunded?
  }

  /** The records that move the money of a receipt, and of a payout. */
  function OnSuccess(): TxStatus -> bool {
    (s: TxStatus) => s.Success?
  }

  function OnFailure(): TxStatus -> bool {
    (s: TxStatus) => TerminalFail(s)
  }

  /**
   The upper case of a character. Besides the ASCII letters these are all the characters whose upper case
   is made of ASCII letters; any other has an upper case that no word of the vocabulary contains, as it
   does not contain the character itself.
   */
  function UpperChar(c: char): string {
    if 'a' <= c <= 'z' then ['A' + (c - 'a')]
    else if c == '\U{00DF}' then "SS"
    else if c == '\U{0131}' then "I"
    else if c == '\U{017F}' then "S"
    else if c == '\U{FB00}' then "FF"
    else if c == '\U{FB01}' then "FI"
    else if c == '\U{FB02}' then "FL"
    else if c == '\U{FB03}' then "FFI"
    else if c == '\U{FB04}' then "FFL"
    else if c == '\U{FB05}' || c == '\U{FB06}' then "ST"
    else [c]
  }

  function Upper(s: string): string {
    if s == "" then "" else UpperChar(s[0]) + Upper(s[1..])
  }

  function MapProviderStatus(status: Option<string>): TxStatus {
    var word := Upper(status.GetOr(""));
    if word in SUCCESS_WORDS then Success
    else if word in PROCESSING_WORDS then Processing
    else if word in FAILED_WORDS then Failed
    else if word == "REFUNDED" then Refunded
    else if word == "REVERSED" then Reversed
    else if word in EXPIRED_WORDS then Expired
    else Pending
  }

  /** The spelling of a provider word does not matter. */
  lemma MapIgnoresCase(a: string, b: string)
    requires |a| == |b| && forall i :: 0 <= i < |a| ==> UpperChar(a[i]) == UpperChar(b[i])
    ensures MapProviderStatus(Some(a)) == MapProviderStatus(Some(b))
  {
    UpperAgrees(a, b);
  }

  lemma {:induction false} UpperAgrees(a: string, b: string)
    requires |a| == |b| && forall i :: 0 <= i < |a| ==> UpperChar(a[i]) == UpperChar(b[i])
    ensures Upper(a) == Upper(b)
  {
    hide UpperChar;
    if a != "" {
      UpperAgrees(a[1..], b[1..]);
    }
  }

  /** A word already in upper case stays as it is. */
  lemma {:induction false} UpperStays(s: string)
    requires forall i :: 0 <= i < |s| ==> 'A' <= s[i] <= 'Z'
    ensures Upper(s) == s
  {
    if s != "" {
      UpperStays(s[1..]);
      assert s == [s[0]] + s[1..];
    }
  }

  predicate Ascii(s: string) {
    forall i :: 0 <= i < |s| ==> s[i] < 128 as char
  }

  /** In an ASCII word every small letter becomes the capital one 32 places before it, and nothing else changes. */
  lemma {:induction false} UpperAscii(s: string)
    requires Ascii(s)
    ensures |Upper(s)| == |s|
    ensures forall i :: 0 <= i < |s| ==>
              Upper(s)[i] as int == if 97 <= s[i] as int <= 122 then s[i] as int - 32 else s[i] as int
  {
    if s != "" {
      UpperAscii(s[1..]);
    }
  }

  predicate Capital(c: char) {
    65 <= c as int <= 90
  }

  /** However the letters of a word of capitals are spelt, its upper case is the word. */
  lemma {:induction false} AnySpelling(s: string, word: string)
    requires |s| == |word| && Ascii(word) && forall i :: 0 <= i < |word| ==> !(97 <= word[i] as int <= 122)
    requires forall i :: 0 <= i < |s| ==>
               s[i] == word[i] || (Capital(word[i]) && s[i] as int == word[i] as int + 32)
    ensures Upper(s) == word
  {
    hide Upper;
    UpperAscii(s);
    forall i | 0 <= i < |s| ensures Upper(s)[i] == word[i] {
      assert Upper(s)[i] as int == word[i] as int;
    }
  }

  /** Each status has its own words; no word belongs to two, and every other text means PENDING. */
  lemma MapDecides(status: Option<string>)
    ensures var word, mapped := Upper(status.GetOr("")), MapProviderStatus(status);
            && (mapped == Success <==>
                  word in ["SUCCESS", "SUCCESSFUL", "SETTLED", "COMPLETED", "PAID", "ACCEPTED"])
            && (mapped == Processing <==> word in ["PROCESSING", "IN_PROGRESS", "ONGOING"])
            && (mapped == Failed <==> word in ["FAILED", "REJECTED", "CANCELLED", "CANCELED", "ERROR"])
            && (mapped == Refunded <==> word == "REFUNDED")
            && (mapped == Reversed <==> word == "REVERSED")
            && (mapped == Expired <==> word in ["EXPIRED", "TIMEOUT"])
    ensures status == None ==> MapProviderStatus(status) == Pending
  {
  }

  lemma {:induction false} UpperJoins(s: string, t: string)
    ensures Upper(s + t) == Upper(s) + Upper(t)
  {
    if s == "" {
      assert s + t == t;
    } else {
      assert (s + t)[1..] == s[1..] + t;
      UpperJoins(s[1..], t);
      hide UpperChar;
    }
  }

  /** Letters outside ASCII count when their upper case is ASCII: a sharp s, a long s and a dotless i. */
  lemma {:induction false} ForeignLetters(s: string, t: string)
    ensures Upper(s + "\U{00DF}" + t) == Upper(s) + "SS" + Upper(t)
    ensures Upper(s + "\U{017F}" + t) == Upper(s) + "S" + Upper(t)
    ensures Upper(s + "\U{0131}" + t) == Upper(s) + "I" + Upper(t)
  {
    OneForeign(s, '\U{00DF}', t);
    OneForeign(s, '\U{017F}', t);
    OneForeign(s, '\U{0131}', t);
  }

  lemma {:induction false} OneForeign(s: string, c: char, t: string)
    ensures Upper(s + [c] + t) == Upper(s) + UpperChar(c) + Upper(t)
  {
    UpperJoins(s + [c], t);
    UpperJoins(s, [c]);
    assert [c][1..] == "" && Upper([c]) == UpperChar(c) + Upper("");
    hide UpperChar;
  }
}
