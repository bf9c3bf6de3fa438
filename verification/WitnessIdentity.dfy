/** What the identity of a witness depends on (apps/api/src/modules/detection/identity.ts). */
module WitnessIdentity {
  import opened Domain

  ghost predicate Blank(s: string) {
    forall i :: 0 <= i < |s| ==> IsSpace(s[i])
  }

  /** The same text up to the case of its letters. */
  ghost predicate SameLetters(a: string, b: string) {
    |a| == |b| && forall i :: 0 <= i < |a| ==> LowerChar(a[i]) == LowerChar(b[i])
  }

  /** Two characters are the same letter when they are one, or the capital and the small form of one. */
  lemma SameLetterIff(a: char, b: char)
    ensures LowerChar(a) == LowerChar(b) <==>
              || a == b
              || ('A' <= a <= 'Z' && b as int == a as int + 32) || ('A' <= b <= 'Z' && a as int == b as int + 32)
  {
  }

  /** A blank is a space, a tab, or one of the four line and page breaks next to it. */
  lemma BlankCharacters(c: char)
    ensures IsSpace(c) <==> c as int in {9, 10, 11, 12, 13, 32}
  {
  }

  lemma {:induction false} TrimLeftOfBlank(blank: string, s: string)
    requires Blank(blank)
    ensures TrimLeft(blank + s) == TrimLeft(s)
  {
    if blank == "" {
      assert blank + s == s;
    } else {
      assert (blank + s)[1..] == blank[1..] + s;
      TrimLeftOfBlank(blank[1..], s);
    }
  }

  lemma {:induction false} TrimRightOfBlank(s: string, blank: string)
    requires Blank(blank)
    ensures TrimRight(s + blank) == TrimRight(s)
  {
    if blank == "" {
      assert s + blank == s;
    } else {
      var last := |blank| - 1;
      assert (s + blank)[..|s| + last] == s + blank[..last];
      TrimRightOfBlank(s, blank[..last]);
    }
  }

  lemma {:induction false} BlankTrimsAway(s: string)
    ensures TrimRight(TrimLeft(s)) == "" <==> Blank(s)
  {
    if Blank(s) {
      TrimLeftOfBlank(s, "");
      assert s + "" == s;
    } else {
      var i :| 0 <= i < |s| && !IsSpace(s[i]);
      TrimLeftKeeps(s, i);
      var rest := TrimLeft(s);
      var j :| 0 <= j < |rest| && !IsSpace(rest[j]);
      TrimRightKeeps(rest, j);
    }
  }

  lemma {:induction false} TrimLeftKeeps(s: string, i: nat)
    requires i < |s| && !IsSpace(s[i])
    ensures exists j :: 0 <= j < |TrimLeft(s)| && !IsSpace(TrimLeft(s)[j])
  {
    if IsSpace(s[0]) {
      assert i > 0 && s[1..][i - 1] == s[i];
      TrimLeftKeeps(s[1..], i - 1);
      assert TrimLeft(s) == TrimLeft(s[1..]);
    } else {
      assert TrimLeft(s) == s;
    }
  }

  lemma {:induction false} TrimRightKeeps(s: string, i: nat)
    requires i < |s| && !IsSpace(s[i])
    ensures TrimRight(s) != ""
  {
    if IsSpace(s[|s| - 1]) {
      TrimRightKeeps(s[..|s| - 1], i);
    }
  }

  /** Blanks after a string stay outside what is left of it once the blanks before it are gone. */
  lemma {:induction false} TrimLeftThenMore(s: string, blank: string)
    requires Blank(blank) && !Blank(s)
    ensures TrimLeft(s + blank) == TrimLeft(s) + blank
  {
    if IsSpace(s[0]) {
      assert (s + blank)[1..] == s[1..] + blank;
      assert s == [s[0]] + s[1..];
      TrimLeftThenMore(s[1..], blank);
    }
  }

  /** Blanks around a field are ignored. */
  lemma {:induction false} PaddingIsIgnored(before: string, s: string, after: string)
    requires Blank(before) && Blank(after)
    ensures TrimmedString(Some(before + s + after)) == TrimmedString(Some(s))
  {
    assert before + s + after == before + (s + after);
    TrimLeftOfBlank(before, s + after);
    if Blank(s) {
      BlankTrimsAway(s + after);
      BlankTrimsAway(s);
    } else {
      TrimLeftThenMore(s, after);
      TrimRightOfBlank(TrimLeft(s), after);
    }
  }

  ghost predicate Names(field: Option<string>) {
    field.Some? && !Blank(field.value)
  }

  lemma NamedIsNotEmpty(field: Option<string>)
    ensures TrimmedString(field) != "" <==> Names(field)
  {
    if field.Some? {
      BlankTrimsAway(field.value);
    }
  }

  /** The first field that is more than blanks decides: device, then reporter wallet, then provider wallet; a
      provider id counts only where none of them is. Names are compared without case and surrounding blanks. */
  lemma {:induction false} FirstNameDecides(e: Evidence)
    ensures var p, i := e.payload, EvidenceSourceIdentity(e);
            && (i.Device? <==> Names(p.deviceId))
            && (i.Wallet? <==> !Names(p.deviceId) && (Names(p.reporterWallet) || Names(p.providerWallet)))
            && (i.Provider? <==> !Names(p.deviceId) && !Names(p.reporterWallet) && !Names(p.providerWallet))
            && (i.Device? ==> SameLetters(i.name, TrimmedString(p.deviceId)))
            && (i.Wallet? ==> SameLetters(i.address,
                TrimmedString(if Names(p.reporterWallet) then p.reporterWallet else p.providerWallet)))
            && (i.Provider? ==> i.id == e.providerId)
  {
    NamedIsNotEmpty(e.payload.deviceId);
    NamedIsNotEmpty(e.payload.reporterWallet);
    NamedIsNotEmpty(e.payload.providerWallet);
    hide TrimmedString, Names;
  }

  lemma {:induction false} LowerSame(a: string, b: string)
    ensures SameLetters(a, b) <==> Lower(a) == Lower(b)
  {
    if Lower(a) == Lower(b) {
      assert |Lower(a)| == |a| && |Lower(b)| == |b|;
      forall i | 0 <= i < |a|
        ensures LowerChar(a[i]) == LowerChar(b[i])
      {
        assert Lower(a)[i] == Lower(b)[i];
      }
    }
  }

  /** Two readings with device ids come from one witness exactly when the ids agree up to case and surrounding
      blanks, whatever their wallets and provider ids are. */
  lemma {:induction false} SameDeviceIffSameName(a: Evidence, b: Evidence)
    requires Names(a.payload.deviceId) && Names(b.payload.deviceId)
    ensures EvidenceSourceIdentity(a) == EvidenceSourceIdentity(b) <==>
            SameLetters(TrimmedString(a.payload.deviceId), TrimmedString(b.payload.deviceId))
  {
    NamedIsNotEmpty(a.payload.deviceId);
    NamedIsNotEmpty(b.payload.deviceId);
    LowerSame(TrimmedString(a.payload.deviceId), TrimmedString(b.payload.deviceId));
  }
}
