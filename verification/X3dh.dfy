/** The initial key agreement of app/crypto/x3dh.py. */
module X3dh {
  import opened Wrappers
  import opened SymbolicCrypto

  const X3DH_INFO := "tootalk-x3dh-v1"

  datatype PreKeyBundle = PreKeyBundle(
    identity: PublicKey,
    signedPrekey: PublicKey,
    oneTimePrekey: Option<PublicKey>)

  /** The private halves a responder keeps for a published bundle. */
  datatype PreKeySecrets = PreKeySecrets(
    identity: PrivateKey,
    signedPrekey: PrivateKey,
    oneTimePrekey: Option<PrivateKey>)

  function PublicOption(sk: Option<PrivateKey>): Option<PublicKey> {
    match sk
    case None => None
    case Some(k) => Some(PublicOf(k))
  }

  function Publish(s: PreKeySecrets): PreKeyBundle {
    PreKeyBundle(PublicOf(s.identity), PublicOf(s.signedPrekey), PublicOption(s.oneTimePrekey))
  }

  /** The Diffie-Hellman outputs are 32 bytes each, so concatenation is a sequence of them. */
  function KdfX3dh(dhConcat: seq<Key>): Key {
    HkdfBlock([Repeated(0xff)] + dhConcat, Repeated(0x00), X3DH_INFO, 0)
  }

  /** Returns the ephemeral key pair and the shared secret. */
  function X3dhInitiator(myIdentity: PrivateKey, bundle: PreKeyBundle, ephemeral: PrivateKey)
    : (PublicKey, PrivateKey, Key)
  {
    var dh1 := X25519(myIdentity, bundle.signedPrekey);
    var dh2 := X25519(ephemeral, bundle.identity);
    var dh3 := X25519(ephemeral, bundle.signedPrekey);
    var dh4 := match bundle.oneTimePrekey
      case None => []
      case Some(opk) => [X25519(ephemeral, opk)];
    (PublicOf(ephemeral), ephemeral, KdfX3dh([dh1, dh2, dh3] + dh4))
  }

  function X3dhResponder(mine: PreKeySecrets, aliceIdentity: PublicKey, aliceEphemeral: PublicKey): Key {
    var dh1 := X25519(mine.signedPrekey, aliceIdentity);
    var dh2 := X25519(mine.identity, aliceEphemeral);
    var dh3 := X25519(mine.signedPrekey, aliceEphemeral);
    var dh4 := match mine.oneTimePrekey
      case None => []
      case Some(opk) => [X25519(opk, aliceEphemeral)];
    KdfX3dh([dh1, dh2, dh3] + dh4)
  }

  /**
   The two sides agree on the secret exactly when they agree on the one-time prekey:
   both without one, or both with the same one.
   */
  lemma AgreementIffSamePrekey(alice: PrivateKey, ephemeral: PrivateKey, published: PreKeySecrets,
                               used: Option<PrivateKey>)
    ensures X3dhInitiator(alice, Publish(published), ephemeral).2
         == X3dhResponder(published.(oneTimePrekey := used), PublicOf(alice), PublicOf(ephemeral))
       <==> published.oneTimePrekey == used
  {
    var sent := X3dhInitiator(alice, Publish(published), ephemeral).2;
    var got := X3dhResponder(published.(oneTimePrekey := used), PublicOf(alice), PublicOf(ephemeral));
    if published.oneTimePrekey != used {
      if published.oneTimePrekey.Some? && used.Some? {
        assert sent.ikm[4] != got.ikm[4];
      } else {
        assert |sent.ikm| != |got.ikm|;
      }
    }
  }

  /** The responder gets the initiator's secret exactly with the private halves of all published keys. */
  lemma OnlyTheOwnerAgrees(alice: PrivateKey, ephemeral: PrivateKey, published: PreKeySecrets, used: PreKeySecrets)
    ensures X3dhInitiator(alice, Publish(published), ephemeral).2
         == X3dhResponder(used, PublicOf(alice), PublicOf(ephemeral))
       <==> published == used
  {
    var sent := X3dhInitiator(alice, Publish(published), ephemeral).2;
    var got := X3dhResponder(used, PublicOf(alice), PublicOf(ephemeral));
    AgreementIffSamePrekey(alice, ephemeral, published, used.oneTimePrekey);
    if sent == got {
      assert forall i :: 0 <= i < |sent.ikm| ==> sent.ikm[i] == got.ikm[i];
      assert sent.ikm[2] == X25519(ephemeral, PublicOf(published.identity));
      assert sent.ikm[3] == X25519(ephemeral, PublicOf(published.signedPrekey));
      assert published == used.(oneTimePrekey := published.oneTimePrekey);
    }
  }

  /** And exactly from the identity and the ephemeral key that the initiator used. */
  lemma OnlyTheSenderAgrees(alice: PrivateKey, ephemeral: PrivateKey, bob: PreKeySecrets,
                            claimed: PrivateKey, claimedEphemeral: PrivateKey)
    ensures X3dhInitiator(alice, Publish(bob), ephemeral).2
         == X3dhResponder(bob, PublicOf(claimed), PublicOf(claimedEphemeral))
       <==> alice == claimed && ephemeral == claimedEphemeral
  {
    var sent := X3dhInitiator(alice, Publish(bob), ephemeral).2;
    var got := X3dhResponder(bob, PublicOf(claimed), PublicOf(claimedEphemeral));
    AgreementIffSamePrekey(alice, ephemeral, bob, bob.oneTimePrekey);
    if sent == got {
      assert forall i :: 0 <= i < |sent.ikm| ==> sent.ikm[i] == got.ikm[i];
      assert sent.ikm[1] == X25519(alice, PublicOf(bob.signedPrekey));
      assert sent.ikm[2] == X25519(ephemeral, PublicOf(bob.identity));
    }
  }
}
