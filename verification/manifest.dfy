/** The asset manifest: normalisation in place and uniqueness. */
module Manifests {

  datatype ManifestAsset = ManifestAsset(name: string, ip: string, protocol: string, assetID: string, accountID: string)

  // ---- Text ----

  predicate IsSpace(c: char) {
    c in {' ', '\t', '\n', '\r', '\U{000B}', '\U{000C}', '\U{0085}', '\U{00A0}'}
  }

  function TrimLeft(s: string): string {
    if s != [] && IsSpace(s[0]) then TrimLeft(s[1..]) else s
  }

  function TrimRight(s: string): string {
    if s != [] && IsSpace(s[|s| - 1]) then TrimRight(s[..|s| - 1]) else s
  }

  function Trim(s: string): string { TrimRight(TrimLeft(s)) }

  function LowerChar(c: char): char {
    if 'A' <= c <= 'Z' then c - 'A' + 'a' else c
  }

  function ToLower(s: string): (r: string)
    ensures |r| == |s|
  {
    seq(|s|, i requires 0 <= i < |s| => LowerChar(s[i]))
  }

  /** Nothing to trim at either end. */
  predicate Trimmed(s: string) {
    s == [] || (!IsSpace(s[0]) && !IsSpace(s[|s| - 1]))
  }

  lemma {:induction false} TrimRightEnds(s: string)
    ensures var r := TrimRight(s); r <= s && (r == [] || !IsSpace(r[|r| - 1]))
  {
    if s != [] && IsSpace(s[|s| - 1]) {
      TrimRightEnds(s[..|s| - 1]);
    }
  }

  lemma {:induction false} TrimLeftStarts(s: string)
    ensures var r := TrimLeft(s); r == [] || !IsSpace(r[0])
  {
    if s != [] && IsSpace(s[0]) {
      TrimLeftStarts(s[1..]);
    }
  }

  lemma TrimTrims(s: string)
    ensures Trimmed(Trim(s))
  {
    TrimLeftStarts(s);
    TrimRightEnds(TrimLeft(s));
  }

  lemma TrimmedStays(s: string)
    requires Trimmed(s)
    ensures Trim(s) == s
  {
  }

  lemma LowerTwice(s: string)
    ensures ToLower(ToLower(s)) == ToLower(s)
    ensures Trimmed(s) ==> Trimmed(ToLower(s))
  {
  }

  // ---- Assets ----

  function ProtocolText(text: string): string {
    var p := ToLower(Trim(text));
    if p == "database" then "mysql" else p
  }

  function Normal(a: ManifestAsset): ManifestAsset {
    ManifestAsset(Trim(a.name), Trim(a.ip), ProtocolText(a.protocol), Trim(a.assetID), Trim(a.accountID))
  }

  function NormalAll(assets: seq<ManifestAsset>): (r: seq<ManifestAsset>)
    ensures |r| == |assets|
  {
    seq(|assets|, i requires 0 <= i < |assets| => Normal(assets[i]))
  }

  /** Normalising twice is normalising once, so a validated manifest may be validated again. */
  lemma NormalTwice(a: ManifestAsset)
    ensures Normal(Normal(a)) == Normal(a)
  {
    hide Trim, ToLower;
    TrimAgain(a.name);
    TrimAgain(a.ip);
    TrimAgain(a.assetID);
    TrimAgain(a.accountID);
    var p := ToLower(Trim(a.protocol));
    TrimTrims(a.protocol);
    LowerTwice(Trim(a.protocol));
    TrimmedStays(p);
    LowerMySQL();
    TrimmedStays("mysql");
  }

  lemma TrimAgain(s: string)
    ensures Trim(Trim(s)) == Trim(s)
  {
    TrimTrims(s);
    TrimmedStays(Trim(s));
  }

  lemma LowerMySQL()
    ensures ToLower("mysql") == "mysql"
  {
  }

  predicate WellFormed(a: ManifestAsset) {
    && a.name != "" && a.ip != "" && a.assetID != "" && a.accountID != ""
    && a.protocol in {"ssh", "rdp", "vnc", "web", "mysql"}
  }

  predicate Unique(assets: seq<ManifestAsset>) {
    forall i, j :: 0 <= i < j < |assets| ==>
      && assets[i].name != assets[j].name && assets[i].ip != assets[j].ip
      && assets[i].assetID != assets[j].assetID && assets[i].accountID != assets[j].accountID
  }

  /** What the normalised assets of an accepted manifest satisfy. */
  predicate Sound(assets: seq<ManifestAsset>) {
    Unique(assets) && forall a :: a in assets ==> WellFormed(a)
  }

  predicate ValidManifest(version: int, assets: seq<ManifestAsset>) {
    version == 1 && assets != [] && Sound(NormalAll(assets))
  }

  lemma SoundNext(assets: seq<ManifestAsset>, n: nat)
    requires n < |assets| && Sound(NormalAll(assets[..n]))
    ensures Sound(NormalAll(assets[..n + 1])) <==>
              var a := Normal(assets[n]);
              WellFormed(a) && forall k :: 0 <= k < n ==>
                && Normal(assets[k]).name != a.name && Normal(assets[k]).ip != a.ip
                && Normal(assets[k]).assetID != a.assetID && Normal(assets[k]).accountID != a.accountID
    ensures Sound(NormalAll(assets)) ==> Sound(NormalAll(assets[..n + 1]))
  {
    hide Normal;
    var more, all := NormalAll(assets[..n + 1]), NormalAll(assets);
    assert more == NormalAll(assets[..n]) + [Normal(assets[n])];
    assert more == all[..n + 1];
    assert more[n] in more;
    assert forall k :: 0 <= k < n ==> more[k] == Normal(assets[k]);
    assert forall a :: a in more ==> a in all;
  }

  /** The assets are normalised in place, up to the first that is refused. */
  method ValidateManifest(version: int, assets: array<ManifestAsset>) returns (ok: bool)
    modifies assets
    ensures ok <==> ValidManifest(version, old(assets[..]))
    ensures ok ==> assets[..] == NormalAll(old(assets[..]))
  {
    hide Normal, Sound, WellFormed;
    if version != 1 || assets.Length == 0 {
      return false;
    }
    var names, ips, ids, accounts: set<string> := {}, {}, {}, {};
    var n := 0;
    ghost var given := assets[..];
    assert given[..0] == [];
    NothingSound();
    while n < assets.Length
      invariant n <= assets.Length && Sound(NormalAll(given[..n]))
      invariant forall k :: 0 <= k < n ==> assets[k] == Normal(given[k])
      invariant forall k :: n <= k < assets.Length ==> assets[k] == given[k]
      invariant names == (set k | 0 <= k < n :: Normal(given[k]).name) &&
                  ips == (set k | 0 <= k < n :: Normal(given[k]).ip)
      invariant ids == (set k | 0 <= k < n :: Normal(given[k]).assetID)
      invariant accounts == (set k | 0 <= k < n :: Normal(given[k]).accountID)
    {
      var a := Normal(assets[n]);
      assets[n] := a;
      SoundNext(given, n);
      if !WellFormed(a) {
        return false;
      }
      if a.name in names || a.ip in ips || a.assetID in ids || a.accountID in accounts {
        return false;
      }
      names, ips, ids, accounts := names + {a.name}, ips + {a.ip}, ids + {a.assetID}, accounts + {a.accountID};
      n := n + 1;
    }
    assert given[..n] == given;
    assert assets[..] == NormalAll(given);
    return true;
  }

  lemma NothingSound()
    ensures Sound(NormalAll([]))
  {
  }

  /** An accepted manifest is accepted again after normalisation, unchanged. */
  lemma ValidatesAgain(version: int, assets: seq<ManifestAsset>)
    requires ValidManifest(version, assets)
    ensures ValidManifest(version, NormalAll(assets)) && NormalAll(NormalAll(assets)) == NormalAll(assets)
  {
    hide Normal, Sound;
    forall i | 0 <= i < |assets| ensures Normal(Normal(assets[i])) == Normal(assets[i]) {
      NormalTwice(assets[i]);
    }
    assert NormalAll(NormalAll(assets)) == NormalAll(assets);
    assert |NormalAll(assets)| > 0;
  }

  // ---- What is accepted, text by text ----

  /** White space is tab, line feed, vertical tab, form feed, carriage return, space, next line and no-break space. */
  predicate Blank(t: string) {
    forall k :: 0 <= k < |t| ==>
      9 <= t[k] as int <= 13 || t[k] as int == 32 || t[k] as int == 133 || t[k] as int == 160
  }

  lemma BlankIs(t: string)
    ensures Blank(t) <==> forall k :: 0 <= k < |t| ==> IsSpace(t[k])
  {
  }

  lemma {:induction false} LeftBlank(s: string) returns (a: string)
    ensures s == a + TrimLeft(s) && forall k :: 0 <= k < |a| ==> IsSpace(a[k])
  {
    a := "";
    if s != [] && IsSpace(s[0]) {
      var rest := LeftBlank(s[1..]);
      a := [s[0]] + rest;
      assert s == [s[0]] + s[1..];
    }
  }

  lemma {:induction false} RightBlank(s: string) returns (b: string)
    ensures s == TrimRight(s) + b && forall k :: 0 <= k < |b| ==> IsSpace(b[k])
  {
    b := "";
    if s != [] && IsSpace(s[|s| - 1]) {
      var rest := RightBlank(s[..|s| - 1]);
      b := rest + [s[|s| - 1]];
      assert s == s[..|s| - 1] + [s[|s| - 1]];
    }
  }

  /** Trimming takes the white space off both ends, and all of it. */
  lemma TrimExactly(s: string) returns (a: string, b: string)
    ensures s == a + Trim(s) + b && Blank(a) && Blank(b)
    ensures Trim(s) != "" ==> !Blank(Trim(s)[..1]) && !Blank(Trim(s)[|Trim(s)| - 1..])
  {
    hide TrimLeft, TrimRight, IsSpace, Blank;
    a := LeftBlank(s);
    b := RightBlank(TrimLeft(s));
    BlankIs(a);
    BlankIs(b);
    TrimTrims(s);
    assert s == a + (Trim(s) + b);
    if Trim(s) != "" {
      var t := Trim(s);
      BlankIs(t[..1]);
      BlankIs(t[|t| - 1..]);
      assert IsSpace(t[..1][0]) == IsSpace(t[0]) && IsSpace(t[|t| - 1..][0]) == IsSpace(t[|t| - 1]);
    }
  }

  /** The protocol's text in small letters, "database" read as "mysql". */
  lemma ProtocolTextExactly(text: string)
    ensures var t, p := Trim(text), ProtocolText(text);
            if |t| == |"database"| && (forall k :: 0 <= k < |t| ==> LowerChar(t[k]) == "database"[k]) then p == "mysql"
            else |p| == |t| && forall k :: 0 <= k < |t| ==> p[k] == LowerChar(t[k])
    ensures forall c: char :: LowerChar(c) as int == c as int + if 65 <= c as int <= 90 then 32 else 0
  {
    hide Trim;
    var lower := ToLower(Trim(text));
    if |lower| == |"database"| && (forall k :: 0 <= k < |lower| ==> lower[k] == "database"[k]) {
      assert lower == "database";
    }
  }

  /** A manifest of version 1 with at least one asset, each of a known protocol with name, address, asset and account,
      none of which occurs twice once trimmed. */
  lemma AcceptedExactly(version: int, assets: seq<ManifestAsset>)
    ensures ValidManifest(version, assets) <==>
              && version == 1 && |assets| >= 1
              && (forall k :: 0 <= k < |assets| ==>
                    && Trim(assets[k].name) != "" && Trim(assets[k].ip) != ""
                    && Trim(assets[k].assetID) != "" && Trim(assets[k].accountID) != ""
                    && (var p := ProtocolText(assets[k].protocol);
                        p == "ssh" || p == "rdp" || p == "vnc" || p == "web" || p == "mysql"))
              && (forall j, k :: 0 <= j < k < |assets| ==>
                    && Trim(assets[j].name) != Trim(assets[k].name) && Trim(assets[j].ip) != Trim(assets[k].ip)
                    && Trim(assets[j].assetID) != Trim(assets[k].assetID)
                    && Trim(assets[j].accountID) != Trim(assets[k].accountID))
  {
    hide Trim, ProtocolText;
    var all := NormalAll(assets);
    assert forall k :: 0 <= k < |all| ==> all[k] in all && all[k] == Normal(assets[k]);
  }
}
