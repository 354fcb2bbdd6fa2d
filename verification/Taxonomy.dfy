/** The canonical vulnerability classes every observation is mapped to. */
module Taxonomy {
  import opened Wrappers

  datatype Category =
    | Xss | SqlInjection | NosqlInjection | CommandInjection | CodeInjection | TemplateInjection | LdapInjection
    | XpathInjection | HeaderInjection | PathTraversal | Ssrf | Xxe | OpenRedirect | Csrf | BrokenObjectAuthz
    | BrokenAccessControl | Authentication | SessionManagement | InsecureCookie | SecretExposure
    | InformationDisclosure | DirectoryListing | DebugExposure | MissingSecurityHeader | Clickjacking
    | CorsMisconfiguration | TlsWeakness | VulnerableComponent | InsecureDeserialization | UnrestrictedUpload
    | SecurityMisconfiguration | Other

  function Key(c: Category): string {
    match c
    case Xss => "xss"
    case SqlInjection => "sql_injection"
    case NosqlInjection => "nosql_injection"
    case CommandInjection => "command_injection"
    case CodeInjection => "code_injection"
    case TemplateInjection => "template_injection"
    case LdapInjection => "ldap_injection"
    case XpathInjection => "xpath_injection"
    case HeaderInjection => "header_injection"
    case PathTraversal => "path_traversal"
    case Ssrf => "ssrf"
    case Xxe => "xxe"
    case OpenRedirect => "open_redirect"
    case Csrf => "csrf"
    case BrokenObjectAuthz => "broken_object_authz"
    case BrokenAccessControl => "broken_access_control"
    case Authentication => "authentication"
    case SessionManagement => "session_management"
    case InsecureCookie => "insecure_cookie"
    case SecretExposure => "secret_exposure"
    case InformationDisclosure => "information_disclosure"
    case DirectoryListing => "directory_listing"
    case DebugExposure => "debug_exposure"
    case MissingSecurityHeader => "missing_security_header"
    case Clickjacking => "clickjacking"
    case CorsMisconfiguration => "cors_misconfiguration"
    case TlsWeakness => "tls_weakness"
    case VulnerableComponent => "vulnerable_component"
    case InsecureDeserialization => "insecure_deserialization"
    case UnrestrictedUpload => "unrestricted_upload"
    case SecurityMisconfiguration => "security_misconfiguration"
    case Other => "other"
  }

  function Cwes(c: Category): set<int> {
    match c
    case Xss => {79, 80, 83, 87}
    case SqlInjection => {89, 564}
    case NosqlInjection => {943}
    case CommandInjection => {77, 78}
    case CodeInjection => {94, 95}
    case TemplateInjection => {1336}
    case LdapInjection => {90}
    case XpathInjection => {643}
    case HeaderInjection => {93, 113}
    case PathTraversal => {22, 23, 35, 36}
    case Ssrf => {918}
    case Xxe => {611, 776}
    case OpenRedirect => {601}
    case Csrf => {352}
    case BrokenObjectAuthz => {639}
    case BrokenAccessControl => {284, 285, 862, 863}
    case Authentication => {287, 306, 307, 521, 1391}
    case SessionManagement => {384, 613}
    case InsecureCookie => {614, 1004, 1275}
    case SecretExposure => {798, 312, 540}
    case InformationDisclosure => {200, 209, 359, 532, 538}
    case DirectoryListing => {548}
    case DebugExposure => {215, 489}
    case MissingSecurityHeader => {693}
    case Clickjacking => {1021}
    case CorsMisconfiguration => {942, 346}
    case TlsWeakness => {295, 319, 326, 327}
    case VulnerableComponent => {937, 1035, 1104}
    case InsecureDeserialization => {502}
    case UnrestrictedUpload => {434}
    case SecurityMisconfiguration => {16, 1188}
    case Other => {}
  }

  /** The class a CWE is listed under; CwesAreDisjoint shows there is at most one. */
  function ByCwe(cwe: int): Option<Category> {
    if exists c: Category :: cwe in Cwes(c) then
      assert forall c, d :: cwe in Cwes(c) && cwe in Cwes(d) ==> c == d by { CwesAreDisjoint(cwe); }
      var c: Category :| cwe in Cwes(c);
      Some(c)
    else None
  }

  function ByKey(key: string): Option<Category> {
    if exists c: Category :: Key(c) == key then
      assert forall c, d :: Key(c) == key && Key(d) == key ==> c == d by { KeysAreDistinct(key); }
      var c: Category :| Key(c) == key;
      Some(c)
    else None
  }

  /** The first CWE that maps wins, then a hint that names a class, then `other`. */
  function Classify(cwes: seq<int>, hint: string): Category {
    if cwes == [] then (if ByKey(hint).Some? then ByKey(hint).value else Other)
    else if ByCwe(cwes[0]).Some? then ByCwe(cwes[0]).value
    else Classify(cwes[1..], hint)
  }

  /** Where a category stands in the table. */
  function Position(c: Category): (i: nat)
    ensures i < 32
  {
    match c
    case Xss => 0 case SqlInjection => 1 case NosqlInjection => 2 case CommandInjection => 3
    case CodeInjection => 4 case TemplateInjection => 5 case LdapInjection => 6 case XpathInjection => 7
    case HeaderInjection => 8 case PathTraversal => 9 case Ssrf => 10 case Xxe => 11
    case OpenRedirect => 12 case Csrf => 13 case BrokenObjectAuthz => 14 case BrokenAccessControl => 15
    case Authentication => 16 case SessionManagement => 17 case InsecureCookie => 18 case SecretExposure => 19
    case InformationDisclosure => 20 case DirectoryListing => 21 case DebugExposure => 22
    case MissingSecurityHeader => 23
    case Clickjacking => 24 case CorsMisconfiguration => 25 case TlsWeakness => 26 case VulnerableComponent => 27
    case InsecureDeserialization => 28 case UnrestrictedUpload => 29 case SecurityMisconfiguration => 30
    case Other => 31
  }

  // ----- keys

  /** Length and first letters tell the keys apart. */
  function KeyReader(k: string): Category {
    if |k| == 3 then (if k[0] == 'x' && k[1] == 's' then Xss else Xxe)
    else if |k| == 4 then (if k[0] == 's' && k[1] == 's' then Ssrf else Csrf)
    else if |k| == 5 then Other
    else if |k| == 12 then (if k[0] == 'c' && k[1] == 'l' then Clickjacking else TlsWeakness)
    else if |k| == 13 then (if k[0] == 's' && k[1] == 'q' then SqlInjection else OpenRedirect)
    else if |k| == 14 then
      (if k[0] == 'c' && k[1] == 'o' then CodeInjection
       else if k[0] == 'l' && k[1] == 'd' then LdapInjection
       else if k[0] == 'p' && k[1] == 'a' then PathTraversal
       else if k[0] == 'a' && k[1] == 'u' then Authentication
       else DebugExposure)
    else if |k| == 15 then
      (if k[0] == 'n' && k[1] == 'o' then NosqlInjection
       else if k[0] == 'x' && k[1] == 'p' then XpathInjection
       else if k[0] == 'i' && k[1] == 'n' then InsecureCookie
       else SecretExposure)
    else if |k| == 16 then HeaderInjection
    else if |k| == 17 then (if k[0] == 'c' && k[1] == 'o' then CommandInjection else DirectoryListing)
    else if |k| == 18 then (if k[0] == 't' && k[1] == 'e' then TemplateInjection else SessionManagement)
    else if |k| == 19 then (if k[0] == 'b' && k[1] == 'r' then BrokenObjectAuthz else UnrestrictedUpload)
    else if |k| == 20 then VulnerableComponent
    else if |k| == 21 then (if k[0] == 'b' && k[1] == 'r' then BrokenAccessControl else CorsMisconfiguration)
    else if |k| == 22 then InformationDisclosure
    else if |k| == 23 then MissingSecurityHeader
    else if |k| == 24 then InsecureDeserialization
    else if |k| == 25 then SecurityMisconfiguration
    else Other
  }

  lemma {:induction false} KeyReaderReads0(c: Category)
    requires 0 <= Position(c) < 8
    ensures KeyReader(Key(c)) == c
  {
  }

  lemma {:induction false} KeyReaderReads1(c: Category)
    requires 8 <= Position(c) < 16
    ensures KeyReader(Key(c)) == c
  {
  }

  lemma {:induction false} KeyReaderReads2(c: Category)
    requires 16 <= Position(c) < 24
    ensures KeyReader(Key(c)) == c
  {
  }

  lemma {:induction false} KeyReaderReads3(c: Category)
    requires 24 <= Position(c) < 32
    ensures KeyReader(Key(c)) == c
  {
  }

  lemma {:induction false} KeyReaderReads(c: Category)
    ensures KeyReader(Key(c)) == c
  {
    var i := Position(c) / 8;
    if i == 0 {
      KeyReaderReads0(c);
    } else if i == 1 {
      KeyReaderReads1(c);
    } else if i == 2 {
      KeyReaderReads2(c);
    } else {
      KeyReaderReads3(c);
    }
  }

  lemma {:induction false} KeyHasNoPipe0(c: Category)
    requires 0 <= Position(c) < 8
    ensures '|' !in Key(c)
  {
  }

  lemma {:induction false} KeyHasNoPipe1(c: Category)
    requires 8 <= Position(c) < 16
    ensures '|' !in Key(c)
  {
  }

  lemma {:induction false} KeyHasNoPipe2(c: Category)
    requires 16 <= Position(c) < 24
    ensures '|' !in Key(c)
  {
  }

  lemma {:induction false} KeyHasNoPipe3(c: Category)
    requires 24 <= Position(c) < 32
    ensures '|' !in Key(c)
  {
  }

  lemma {:induction false} KeyHasNoPipe(c: Category)
    ensures '|' !in Key(c)
  {
    var i := Position(c) / 8;
    if i == 0 {
      KeyHasNoPipe0(c);
    } else if i == 1 {
      KeyHasNoPipe1(c);
    } else if i == 2 {
      KeyHasNoPipe2(c);
    } else {
      KeyHasNoPipe3(c);
    }
  }

  lemma {:induction false} KeyIsInjective(a: Category, b: Category)
    requires Key(a) == Key(b)
    ensures a == b
  {
    KeyReaderReads(a);
    KeyReaderReads(b);
  }

  lemma {:induction false} KeysAreDistinct(key: string)
    ensures forall c, d :: Key(c) == key && Key(d) == key ==> c == d
  {
    forall c, d | Key(c) == key && Key(d) == key ensures c == d {
      KeyIsInjective(c, d);
    }
  }

  /** A hint names a class exactly when it is the class's key. */
  lemma {:induction false} ByKeyExactly(key: string, c: Category)
    ensures ByKey(key) == Some(c) <==> Key(c) == key
  {
    KeysAreDistinct(key);
  }

  // ----- CWEs

  function CweReader(n: int): Category {
    match n
    case 79 => Xss case 80 => Xss case 83 => Xss case 87 => Xss
    case 89 => SqlInjection case 564 => SqlInjection
    case 943 => NosqlInjection
    case 77 => CommandInjection case 78 => CommandInjection
    case 94 => CodeInjection case 95 => CodeInjection
    case 1336 => TemplateInjection
    case 90 => LdapInjection
    case 643 => XpathInjection
    case 93 => HeaderInjection case 113 => HeaderInjection
    case 22 => PathTraversal case 23 => PathTraversal case 35 => PathTraversal case 36 => PathTraversal
    case 918 => Ssrf
    case 611 => Xxe case 776 => Xxe
    case 601 => OpenRedirect
    case 352 => Csrf
    case 639 => BrokenObjectAuthz
    case 284 => BrokenAccessControl case 285 => BrokenAccessControl case 862 => BrokenAccessControl
    case 863 => BrokenAccessControl
    case 287 => Authentication case 306 => Authentication case 307 => Authentication case 521 => Authentication
    case 1391 => Authentication
    case 384 => SessionManagement case 613 => SessionManagement
    case 614 => InsecureCookie case 1004 => InsecureCookie case 1275 => InsecureCookie
    case 798 => SecretExposure case 312 => SecretExposure case 540 => SecretExposure
    case 200 => InformationDisclosure case 209 => InformationDisclosure case 359 => InformationDisclosure
    case 532 => InformationDisclosure case 538 => InformationDisclosure
    case 548 => DirectoryListing
    case 215 => DebugExposure case 489 => DebugExposure
    case 693 => MissingSecurityHeader
    case 1021 => Clickjacking
    case 942 => CorsMisconfiguration case 346 => CorsMisconfiguration
    case 295 => TlsWeakness case 319 => TlsWeakness case 326 => TlsWeakness case 327 => TlsWeakness
    case 937 => VulnerableComponent case 1035 => VulnerableComponent case 1104 => VulnerableComponent
    case 502 => InsecureDeserialization
    case 434 => UnrestrictedUpload
    case 16 => SecurityMisconfiguration case 1188 => SecurityMisconfiguration
    case _ => Other
  }

  lemma {:induction false} CweReaderReads0(c: Category, n: int)
    requires 0 <= Position(c) < 10 && n in Cwes(c)
    ensures CweReader(n) == c
  {
  }

  lemma {:induction false} CweReaderReads1(c: Category, n: int)
    requires 10 <= Position(c) < 16 && n in Cwes(c)
    ensures CweReader(n) == c
  {
  }

  lemma {:induction false} CweReaderReads2(c: Category, n: int)
    requires 16 <= Position(c) < 21 && n in Cwes(c)
    ensures CweReader(n) == c
  {
  }

  lemma {:induction false} CweReaderReads3(c: Category, n: int)
    requires 21 <= Position(c) < 26 && n in Cwes(c)
    ensures CweReader(n) == c
  {
  }

  lemma {:induction false} CweReaderReads4(c: Category, n: int)
    requires 26 <= Position(c) < 32 && n in Cwes(c)
    ensures CweReader(n) == c
  {
  }

  lemma {:induction false} CweReaderReads(c: Category, n: int)
    requires n in Cwes(c)
    ensures CweReader(n) == c
  {
    var i := Position(c);
    if i < 10 {
      CweReaderReads0(c, n);
    } else if i < 16 {
      CweReaderReads1(c, n);
    } else if i < 21 {
      CweReaderReads2(c, n);
    } else if i < 26 {
      CweReaderReads3(c, n);
    } else {
      CweReaderReads4(c, n);
    }
  }

  /** No CWE is listed under two classes. */
  lemma {:induction false} CwesAreDisjoint(n: int)
    ensures forall c, d :: n in Cwes(c) && n in Cwes(d) ==> c == d
  {
    forall c, d | n in Cwes(c) && n in Cwes(d) ensures c == d {
      CweReaderReads(c, n);
      CweReaderReads(d, n);
    }
  }

  /** A CWE that maps wins over everything after it and over the hint. */
  lemma {:induction false} FirstMappedCweWins(cwes: seq<int>, hint: string, i: nat, c: Category)
    requires i < |cwes| && cwes[i] in Cwes(c)
    requires forall j, d :: 0 <= j < i ==> cwes[j] !in Cwes(d)
    ensures Classify(cwes, hint) == c
    decreases i
  {
    if i == 0 {
      CwesAreDisjoint(cwes[0]);
    } else {
      var tail := cwes[1..];
      assert tail[i - 1] == cwes[i] && forall j :: 0 <= j < i - 1 ==> tail[j] == cwes[j + 1];
      FirstMappedCweWins(tail, hint, i - 1, c);
    }
  }

  lemma {:induction false} CweIsListed(c: Category, n: int)
    requires CweReader(n) == c && c != Other
    ensures n in Cwes(c)
  {
  }

  /** The classes by CWE, read the other way round: each number that maps, and to which class. */
  lemma {:induction false} CweExactly(c: Category, n: int)
    ensures n in Cwes(c) <==> CweReader(n) == c && c != Other
  {
    if n in Cwes(c) {
      CweReaderReads(c, n);
    }
    if CweReader(n) == c && c != Other {
      CweIsListed(c, n);
    }
  }

  ghost predicate FirstMapped(cwes: seq<int>, i: nat) {
    i < |cwes| && CweReader(cwes[i]) != Other && forall j :: 0 <= j < i ==> CweReader(cwes[j]) == Other
  }

  /** Every input has one class: that of the first CWE that maps; without one, that which the hint
      names; and otherwise `other`. */
  lemma {:induction false} ClassifyExactly(cwes: seq<int>, hint: string, c: Category)
    requires c == Classify(cwes, hint)
    ensures forall i: nat :: FirstMapped(cwes, i) ==> c == CweReader(cwes[i])
    ensures (forall i :: 0 <= i < |cwes| ==> CweReader(cwes[i]) == Other) ==>
              Key(c) == hint || (c == Other && forall d :: Key(d) != hint)
    decreases |cwes|
  {
    if cwes == [] {
      ByKeyExactly(hint, c);
      if d :| Key(d) == hint {
        ByKeyExactly(hint, d);
      }
    } else {
      var n := cwes[0];
      ByCweExactly(n);
      if CweReader(n) == Other {
        ClassifyExactly(cwes[1..], hint, c);
        forall i: nat | FirstMapped(cwes, i) ensures c == CweReader(cwes[i]) {
          assert i > 0 && FirstMapped(cwes[1..], i - 1);
        }
        assert forall i :: 0 <= i < |cwes[1..]| ==> cwes[1..][i] == cwes[i + 1];
      }
    }
  }

  lemma {:induction false} ByCweExactly(n: int)
    ensures ByCwe(n) == if CweReader(n) == Other then None else Some(CweReader(n))
  {
    forall c: Category ensures n in Cwes(c) <==> CweReader(n) == c && c != Other {
      CweExactly(c, n);
    }
    if CweReader(n) != Other {
      CwesAreDisjoint(n);
      assert n in Cwes(CweReader(n));
    }
  }
}
