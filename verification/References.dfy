/**
 Internal references: the account's source code followed by the client's own reference, filled up with
 random characters.
 */
module References {
  import opened Wrappers
  import opened Tables

  const SOURCE_CODE_LENGTH := 5
  const CLIENT_REF_LENGTH := 15

  predicate Alphanumeric(c: char) {
    'A' <= c <= 'Z' || '0' <= c <= '9'
  }

  /** A client reference as it is used: up to 15 alphanumeric characters in upper case, none when it is absent. */
  predicate ClientRef(client: string) {
    |client| <= CLIENT_REF_LENGTH && forall i :: 0 <= i < |client| ==> Alphanumeric(client[i])
  }

  predicate Padding(random: string, client: string) {
    |random| == CLIENT_REF_LENGTH - |client| && forall i :: 0 <= i < |random| ==> Alphanumeric(random[i])
  }

  function BuildReference(source: string, client: string, random: string): (reference: Ref)
    requires |source| == SOURCE_CODE_LENGTH && ClientRef(client) && Padding(random, client)
    ensures |reference| == SOURCE_CODE_LENGTH + CLIENT_REF_LENGTH
  {
    source + client + random
  }

  /** References of different accounts never meet, those of one account only if the client parts do. */
  lemma SameReferenceIff(source: string, client: string, random: string, source': string, client': string,
                         random': string)
    requires |source| == SOURCE_CODE_LENGTH && ClientRef(client) && Padding(random, client)
    requires |source'| == SOURCE_CODE_LENGTH && ClientRef(client') && Padding(random', client')
    ensures BuildReference(source, client, random) == BuildReference(source', client', random')
       <==> source == source' && client + random == client' + random'
  {
    var r, r' := BuildReference(source, client, random), BuildReference(source', client', random');
    assert r[..SOURCE_CODE_LENGTH] == source && r'[..SOURCE_CODE_LENGTH] == source';
    assert r[SOURCE_CODE_LENGTH..] == client + random && r'[SOURCE_CODE_LENGTH..] == client' + random';
  }

  /** A client reference always gives the same reference again exactly when it fills all fifteen places. */
  lemma RepeatsIff(source: string, client: string)
    requires |source| == SOURCE_CODE_LENGTH && ClientRef(client)
    ensures (forall p, q :: Padding(p, client) && Padding(q, client)
                            ==> BuildReference(source, client, p) == BuildReference(source, client, q))
       <==> |client| == CLIENT_REF_LENGTH
  {
    if |client| < CLIENT_REF_LENGTH {
      var n := CLIENT_REF_LENGTH - |client|;
      var p, q := seq(n, i => 'A'), seq(n, i => 'B');
      assert Padding(p, client) && Padding(q, client);
      assert BuildReference(source, client, p)[SOURCE_CODE_LENGTH + |client|] == 'A';
      assert BuildReference(source, client, q)[SOURCE_CODE_LENGTH + |client|] == 'B';
    } else {
      assert forall p :: Padding(p, client) ==> p == [];
    }
  }
}
