/** The certificate manager of one control-plane process. */
module CertificateManager {
  import opened Wrappers
  import opened Certificates
  import opened MeshRootCertificates
  import opened Reconciler
  import opened Issuance

  class Manager {
    var signingIssuer: Option<Issuer>
    var validatingIssuer: Option<Issuer>
    var cache: map<string, Certificate>
    var validity: Validity
    /** Every rotation published so far, with its topic, in order. */
    var published: seq<(string, Certificate)>

    constructor (validity: Validity)
      ensures CurrentIssuers() == NO_ISSUERS && cache == map[] && published == [] && this.validity == validity
    {
      signingIssuer, validatingIssuer := None, None;
      cache, published := map[], [];
      this.validity := validity;
    }

    function CurrentIssuers(): Issuers
      reads this
    {
      Issuers(signingIssuer, validatingIssuer)
    }

    /** Every entry is stored under its own cache key. */
    ghost predicate Valid()
      reads this
    {
      forall key :: key in cache ==> cache[key].cacheKey == key
    }

    /** handleMRCEvent: `list` is the slice the MRC client returns, which filtering compacts in place. */
    method HandleMRCEvent(list: array<MRC>, down: set<string>) returns (err: Option<MrcError>)
      modifies list, this`signingIssuer, this`validatingIssuer
      ensures (CurrentIssuers(), err) == old(Reconciler.HandleMRCEvent(CurrentIssuers(), list[..], down))
    {
      var n := FilterOutInactiveMRCs(list);
      match GetSigningAndValidatingMRCs(list[..n]) {
        case Err(e) =>
          return Some(e);
        case Ok((signing, validating)) =>
          if !ShouldUpdateIssuers(CurrentIssuers(), signing, validating) {
            return None;
          }
          match GetCertIssuers(CurrentIssuers(), signing, validating, down) {
            case Err(e) =>
              return Some(e);
            case Ok((s, v)) =>
              signingIssuer, validatingIssuer := Some(s), Some(v);
              return None;
          }
      }
    }

    /** issueCertificate; the caller waits until the manager has issuers. */
    method IssueCertificate(o: IssueOptions, now: int, noise: int, up: bool) returns (result: Option<Certificate>)
      requires Valid() && Ready(CurrentIssuers())
      modifies this`cache, this`published
      ensures Valid()
      ensures var issued := old(Issuance.IssueCertificate(cache, o, CurrentIssuers(), validity, now, noise, up));
              cache == issued.cache && result == issued.result && published == old(published) + issued.messages
    {
      var key := o.commonNamePrefix;
      var rotate := false;
      if key in cache {
        rotate := ShouldRotate(cache[key], CurrentIssuers(), validity, now, noise);
        if !rotate {
          return Some(cache[key]);
        }
      }
      if !up {
        return None;
      }
      var newCert := NewCertificate(o, CurrentIssuers(), validity, now);
      if rotate {
        published := published + [(cache[key].cacheKey, newCert)];
      }
      cache := cache[newCert.cacheKey := newCert];
      return Some(newCert);
    }

    method ReleaseCertificate(key: string)
      requires Valid()
      modifies this`cache
      ensures Valid() && cache == old(cache) - {key}
    {
      cache := cache - {key};
    }

    /** The body of the loop of checkAndRotate; `base` is what had been published before the pass. */
    method CheckEntry(ghost pass: Pass, certs: map<string, Certificate>, ghost todo: set<string>,
                      ghost base: seq<(string, Certificate)>, ghost news: seq<(string, Certificate)>,
                      key: string, now: int, noise: int, up: bool)
      returns (ghost moreNews: seq<(string, Certificate)>)
      requires Valid() && Progress(pass, certs, todo, cache, news) && key in todo && key in certs
      requires pass.issuers == CurrentIssuers() && pass.validity == validity
      requires pass.clock(key) == now && pass.noise(key) == noise
      requires up == (key !in pass.failing) && published == base + news
      modifies this`cache, this`published
      ensures Valid() && Progress(pass, certs, todo - {key}, cache, moreNews)
      ensures published == base + moreNews
    {
      ProgressStep(pass, certs, todo, cache, news, key);
      moreNews := news + Issue(pass, cache, key).messages;
      assert base + moreNews == published + Issue(pass, cache, key).messages;
      var _ := IssueCertificate(RotationOptions(key, certs[key]), now, noise, up);
    }

    /** The loop of checkAndRotate, over a snapshot of the cache, in any order. */
    method CheckEntries(ghost pass: Pass, certs: map<string, Certificate>, clock: string -> int,
                        noise: string -> int, failing: set<string>)
      returns (ghost news: seq<(string, Certificate)>)
      requires Valid() && Ready(CurrentIssuers()) && certs == cache
      requires pass == Pass(CurrentIssuers(), validity, clock, noise, failing)
      modifies this`cache, this`published
      ensures Valid() && published == old(published) + news && Progress(pass, certs, {}, cache, news)
    {
      news := [];
      var todo := certs.Keys;
      ProgressStart(pass, certs);
      while todo != {}
        invariant Valid() && todo <= certs.Keys
        invariant published == old(published) + news
        invariant Progress(pass, certs, todo, cache, news)
        decreases |todo|
      {
        var key :| key in todo;
        news := CheckEntry(pass, certs, todo, old(published), news, key, clock(key), noise(key), key !in failing);
        todo := todo - {key};
      }
    }

    /** One pass. `failing` holds the keys whose provider call fails. The pass keeps the key set, renews each entry that
        is due, and publishes exactly one message per replaced entry. */
    method CheckAndRotate(clock: string -> int, noise: string -> int, failing: set<string>)
      returns (ghost news: seq<(string, Certificate)>)
      requires Valid() && Ready(CurrentIssuers())
      modifies this`cache, this`published
      ensures Valid() && published == old(published) + news
      ensures var pass := Pass(CurrentIssuers(), validity, clock, noise, failing);
              cache == Checked(pass, old(cache)) && OneMessageEach(news, cache, Due(pass, old(cache)))
    {
      var certs := cache;
      ghost var pass := Pass(CurrentIssuers(), validity, clock, noise, failing);
      news := CheckEntries(pass, certs, clock, noise, failing);
      ProgressDone(pass, certs, cache, news);
    }
  }

  /** The circumstances of one pass: issuers, validities, clock and noise for each key, and failing provider calls. */
  datatype Pass = Pass(
    issuers: Issuers, validity: Validity, clock: string -> int, noise: string -> int, failing: set<string>)

  /** The keys of the entries that the pass renews. */
  ghost function Due(pass: Pass, cache: map<string, Certificate>): set<string>
    requires Ready(pass.issuers)
  {
    set key | key in cache && key !in pass.failing
              && ShouldRotate(cache[key], pass.issuers, pass.validity, pass.clock(key), pass.noise(key))
  }

  function CheckedEntry(pass: Pass, key: string, c: Certificate): Certificate
    requires Ready(pass.issuers)
  {
    RotatedEntry(key, c, pass.issuers, pass.validity, pass.clock(key), pass.noise(key), key !in pass.failing)
  }

  /** The cache after the pass: the same keys, each entry checked on its own. */
  function Checked(pass: Pass, cache: map<string, Certificate>): map<string, Certificate>
    requires Ready(pass.issuers)
  {
    map key | key in cache :: CheckedEntry(pass, key, cache[key])
  }

  ghost function Issue(pass: Pass, cache: map<string, Certificate>, key: string): Issued
    requires Ready(pass.issuers) && key in cache
  {
    Issuance.IssueCertificate(cache, RotationOptions(key, cache[key]), pass.issuers, pass.validity, pass.clock(key),
                              pass.noise(key), key !in pass.failing)
  }

  /** The pass has dealt with every key outside `todo`. */
  ghost predicate Progress(pass: Pass, certs: map<string, Certificate>, todo: set<string>,
                           cache: map<string, Certificate>, news: seq<(string, Certificate)>)
  {
    && Ready(pass.issuers) && cache.Keys == certs.Keys
    && (forall key :: key in certs ==> certs[key].cacheKey == key)
    && (forall key :: key in certs ==>
          cache[key] == if key in todo then certs[key] else CheckedEntry(pass, key, certs[key]))
    && OneMessageEach(news, cache, Due(pass, certs) - todo)
  }

  lemma ProgressStart(pass: Pass, certs: map<string, Certificate>)
    requires Ready(pass.issuers) && forall key :: key in certs ==> certs[key].cacheKey == key
    ensures Progress(pass, certs, certs.Keys, certs, [])
  {
    assert Due(pass, certs) - certs.Keys == {};
  }

  lemma ProgressDone(pass: Pass, certs: map<string, Certificate>, cache: map<string, Certificate>,
                     news: seq<(string, Certificate)>)
    requires Progress(pass, certs, {}, cache, news)
    ensures cache == Checked(pass, certs) && OneMessageEach(news, cache, Due(pass, certs))
  {
    assert Due(pass, certs) - {} == Due(pass, certs);
  }

  lemma ProgressStep(pass: Pass, certs: map<string, Certificate>, todo: set<string>,
                     cache: map<string, Certificate>, news: seq<(string, Certificate)>, key: string)
    requires Progress(pass, certs, todo, cache, news) && key in todo && key in certs
    ensures var issued := Issue(pass, cache, key);
            Progress(pass, certs, todo - {key}, issued.cache, news + issued.messages)
  {
    var issued := Issue(pass, cache, key);
    var due := Due(pass, certs);
    CheckIsRotatedEntry(cache, key, pass.issuers, pass.validity, pass.clock(key), pass.noise(key),
                        key !in pass.failing);
    if key in due {
      NoteRotation(news, cache, due - todo, key, issued.cache[key]);
      assert due - (todo - {key}) == due - todo + {key};
    } else {
      assert due - (todo - {key}) == due - todo;
      assert issued.cache == cache;
      assert news + issued.messages == news;
    }
  }

  /** The messages name each rotated key once, carry the entry now cached under it, and name no other key. */
  ghost predicate OneMessageEach(messages: seq<(string, Certificate)>, cache: map<string, Certificate>,
                                 rotated: set<string>) {
    && (forall i, j :: 0 <= i < j < |messages| ==> messages[i].0 != messages[j].0)
    && (forall i :: 0 <= i < |messages| ==> Reports(messages[i], cache, rotated))
    && (forall key :: key in rotated ==> exists i :: 0 <= i < |messages| && messages[i].0 == key)
  }

  predicate Reports(message: (string, Certificate), cache: map<string, Certificate>, rotated: set<string>) {
    message.0 in rotated && message.0 in cache && message.1 == cache[message.0]
  }

  lemma NoteRotation(messages: seq<(string, Certificate)>, cache: map<string, Certificate>, rotated: set<string>,
                     key: string, c: Certificate)
    requires OneMessageEach(messages, cache, rotated) && key !in rotated
    ensures OneMessageEach(messages + [(key, c)], cache[key := c], rotated + {key})
  {
    var more := messages + [(key, c)];
    assert more[|messages|].0 == key;
    forall k | k in rotated
      ensures exists i :: 0 <= i < |more| && more[i].0 == k
    {
      var i :| 0 <= i < |messages| && messages[i].0 == k;
      assert more[i].0 == k;
    }
  }

  /** Issuing with the options derived from an entry turns that entry into its rotated form and nothing else. */
  lemma CheckIsRotatedEntry(cache: map<string, Certificate>, key: string, issuers: Issuers, validity: Validity,
                            now: int, noise: int, up: bool)
    requires Ready(issuers) && key in cache && cache[key].cacheKey == key
    ensures var o := RotationOptions(key, cache[key]);
            var issued := Issuance.IssueCertificate(cache, o, issuers, validity, now, noise, up);
            var entry := RotatedEntry(key, cache[key], issuers, validity, now, noise, up);
            && issued.cache == cache[key := entry]
            && issued.messages ==
               if up && ShouldRotate(cache[key], issuers, validity, now, noise) then [(key, entry)] else []
  {
  }

  /** What a step of a pass does if the cache has changed since the snapshot: it touches only its own key, and leaves
      under it a certificate with the current issuers, outside its renewal window. A key that was released meanwhile
      comes back, without a message; a certificate that was renewed meanwhile stays. */
  lemma InterruptedCheck(cache: map<string, Certificate>, key: string, snapshot: Certificate, issuers: Issuers,
                         validity: Validity, now: int, noise: int)
    requires Ready(issuers) && LongEnough(validity) && IsNoise(noise) && (key in cache ==> cache[key].cacheKey == key)
    ensures var issued :=
              Issuance.IssueCertificate(cache, RotationOptions(key, snapshot), issuers, validity, now, noise, true);
            var due := key in cache && ShouldRotate(cache[key], issuers, validity, now, noise);
            && key in issued.cache && issued.cache == cache[key := issued.cache[key]]
            && StampedWith(issued.cache[key], issuers)
            && HasTimeLeft(issued.cache[key].certType, validity, issued.cache[key].expiration - now)
            && (key in cache && !due ==> issued.cache == cache)
            && issued.messages == if due then [(key, issued.cache[key])] else []
  {
    var o := RotationOptions(key, snapshot);
    FreshIsNotDue(o, issuers, validity, now, noise);
    WindowIsShort(ValidityFor(validity, o.certType), noise);
    if key in cache {
      WindowIsShort(ValidityFor(validity, cache[key].certType), noise);
    }
    var c := Issuance.IssueCertificate(cache, o, issuers, validity, now, noise, true).cache[key];
    OutsideWindowIff(c.certType, validity, c.expiration - now);
  }

  /** After a pass without failures the keys are unchanged and every entry carries the current issuers and lies outside
      its renewal window. */
  lemma SuccessfulPass(pass: Pass, cache: map<string, Certificate>)
    requires Ready(pass.issuers) && LongEnough(pass.validity) && pass.failing == {}
    requires forall key :: key in cache ==> IsNoise(pass.noise(key))
    ensures var after := Checked(pass, cache);
            && after.Keys == cache.Keys
            && forall key :: key in after ==>
                 && StampedWith(after[key], pass.issuers)
                 && HasTimeLeft(after[key].certType, pass.validity, after[key].expiration - pass.clock(key))
  {
    forall key | key in cache
      ensures var c := Checked(pass, cache)[key];
              && StampedWith(c, pass.issuers)
              && HasTimeLeft(c.certType, pass.validity, c.expiration - pass.clock(key))
    {
      CheckedEntryIsSound(key, cache[key], pass.issuers, pass.validity, pass.clock(key), pass.noise(key));
    }
  }
}
