/** The indexes of TLS fingerprints: from hosts to fingerprints and from fingerprints to hosts. */
module Fingerprints {
  import opened Octets

  // A flow with the client's JA4 and the server's JA3S, empty when absent.
  datatype Flow = Flow(srcIp: U32, dstIp: U32, ja4Client: string, ja3Server: string)

  // jaByHostsHashT: per host the fingerprints it used as a client and as a server.
  datatype Host = Host(client: set<string>, server: set<string>)

  datatype Index = Index(byHost: map<U32, Host>, byJa4c: map<string, set<U32>>, byJa3s: map<string, set<U32>>)

  const EMPTY := Index(map[], map[], map[])

  // ---------------------------------------------------------------- one flow

  // Host to fingerprint on the client side: a new host, a new fingerprint of a known one, or nothing.
  function AddClient(t: map<U32, Host>, ip: U32, ja: string): (r: map<U32, Host>) {
    if ip !in t then t[ip := Host({ja}, {})]
    else if ja !in t[ip].client then t[ip := Host(t[ip].client + {ja}, t[ip].server)]
    else t
  }

  function AddServer(t: map<U32, Host>, ip: U32, ja: string): (r: map<U32, Host>) {
    if ip !in t then t[ip := Host({}, {ja})]
    else if ja !in t[ip].server then t[ip := Host(t[ip].client, t[ip].server + {ja})]
    else t
  }

  // Fingerprint to host.
  function AddHost(t: map<string, set<U32>>, ja: string, ip: U32): (r: map<string, set<U32>>) {
    if ja !in t then t[ja := {ip}]
    else if ip !in t[ja] then t[ja := t[ja] + {ip}]
    else t
  }

  function Enter(x: Index, f: Flow): (r: Index) {
    var c := if f.ja4Client != "" then
               Index(AddClient(x.byHost, f.srcIp, f.ja4Client), AddHost(x.byJa4c, f.ja4Client, f.srcIp), x.byJa3s)
             else x;
    if f.ja3Server != "" then
      Index(AddServer(c.byHost, f.dstIp, f.ja3Server), c.byJa4c, AddHost(c.byJa3s, f.ja3Server, f.dstIp))
    else c
  }

  function Build(fs: seq<Flow>): (x: Index) {
    if fs == [] then EMPTY else Enter(Build(fs[..|fs| - 1]), fs[|fs| - 1])
  }

  // ---------------------------------------------------------------- the relations

  type Pairs = set<(U32, string)>

  ghost function Clients(t: map<U32, Host>): Pairs {
    set ip, ja | ip in t && ja in t[ip].client :: (ip, ja)
  }

  ghost function Servers(t: map<U32, Host>): Pairs {
    set ip, ja | ip in t && ja in t[ip].server :: (ip, ja)
  }

  // The converse of an index from fingerprints to hosts.
  ghost function Converse(t: map<string, set<U32>>): Pairs {
    set ip, ja | ja in t && ip in t[ja] :: (ip, ja)
  }

  // What the flows say.
  ghost function ClientPairs(fs: seq<Flow>): Pairs { set f | f in fs && f.ja4Client != "" :: (f.srcIp, f.ja4Client) }
  ghost function ServerPairs(fs: seq<Flow>): Pairs { set f | f in fs && f.ja3Server != "" :: (f.dstIp, f.ja3Server) }

  lemma ClientAdds(t: map<U32, Host>, ip: U32, ja: string)
    ensures Clients(AddClient(t, ip, ja)) == Clients(t) + {(ip, ja)}
    ensures Servers(AddClient(t, ip, ja)) == Servers(t)
  {
  }

  lemma ServerAdds(t: map<U32, Host>, ip: U32, ja: string)
    ensures Servers(AddServer(t, ip, ja)) == Servers(t) + {(ip, ja)}
    ensures Clients(AddServer(t, ip, ja)) == Clients(t)
  {
  }

  lemma HostAdds(t: map<string, set<U32>>, ja: string, ip: U32)
    ensures Converse(AddHost(t, ja, ip)) == Converse(t) + {(ip, ja)}
  {
  }

  lemma PairsGrow(fs: seq<Flow>)
    requires fs != []
    ensures var past, f := fs[..|fs| - 1], fs[|fs| - 1];
            && ClientPairs(fs) == ClientPairs(past) + (if f.ja4Client != "" then {(f.srcIp, f.ja4Client)} else {})
            && ServerPairs(fs) == ServerPairs(past) + (if f.ja3Server != "" then {(f.dstIp, f.ja3Server)} else {})
  {
    assert forall g :: g in fs <==> g in fs[..|fs| - 1] || g == fs[|fs| - 1];
  }

  // No host and no fingerprint is listed without a partner.
  ghost predicate NoneEmpty(x: Index) {
    && (forall ip | ip in x.byHost :: x.byHost[ip].client != {} || x.byHost[ip].server != {})
    && (forall ja | ja in x.byJa4c :: x.byJa4c[ja] != {}) && (forall ja | ja in x.byJa3s :: x.byJa3s[ja] != {})
  }

  lemma EnterAdds(x: Index, f: Flow)
    ensures var r := Enter(x, f);
            var c: Pairs := if f.ja4Client != "" then {(f.srcIp, f.ja4Client)} else {};
            var s: Pairs := if f.ja3Server != "" then {(f.dstIp, f.ja3Server)} else {};
            && Clients(r.byHost) == Clients(x.byHost) + c && Converse(r.byJa4c) == Converse(x.byJa4c) + c
            && Servers(r.byHost) == Servers(x.byHost) + s && Converse(r.byJa3s) == Converse(x.byJa3s) + s
  {
    var t := if f.ja4Client != "" then AddClient(x.byHost, f.srcIp, f.ja4Client) else x.byHost;
    ClientAdds(x.byHost, f.srcIp, f.ja4Client);
    HostAdds(x.byJa4c, f.ja4Client, f.srcIp);
    ServerAdds(t, f.dstIp, f.ja3Server);
    HostAdds(x.byJa3s, f.ja3Server, f.dstIp);
  }

  lemma EnterKeepsNoneEmpty(x: Index, f: Flow)
    requires NoneEmpty(x)
    ensures NoneEmpty(Enter(x, f))
  {
  }

  // For every list of flows the two indexes of each side are converse to each other and hold
  // exactly the pairs of the flows.
  lemma {:induction false} IndexesAreConverse(fs: seq<Flow>)
    ensures var x := Build(fs);
            && Clients(x.byHost) == Converse(x.byJa4c) == ClientPairs(fs)
            && Servers(x.byHost) == Converse(x.byJa3s) == ServerPairs(fs)
            && NoneEmpty(x)
  {
    if fs != [] {
      var past := fs[..|fs| - 1];
      IndexesAreConverse(past);
      PairsGrow(fs);
      EnterAdds(Build(past), fs[|fs| - 1]);
      EnterKeepsNoneEmpty(Build(past), fs[|fs| - 1]);
    }
  }

  // The loop over all flows.
  method BuildIndexes(flows: seq<Flow>) returns (byHost: map<U32, Host>, byJa4c: map<string, set<U32>>, byJa3s: map<string, set<U32>>)
    ensures Index(byHost, byJa4c, byJa3s) == Build(flows)
    ensures Clients(byHost) == Converse(byJa4c) == ClientPairs(flows)
    ensures Servers(byHost) == Converse(byJa3s) == ServerPairs(flows)
  {
    byHost, byJa4c, byJa3s := map[], map[], map[];
    var i := 0;
    while i < |flows|
      invariant 0 <= i <= |flows|
      invariant Index(byHost, byJa4c, byJa3s) == Build(flows[..i])
    {
      var f := flows[i];
      assert flows[..i + 1][..i] == flows[..i];
      if f.ja4Client != "" {
        byHost := AddClient(byHost, f.srcIp, f.ja4Client);
        byJa4c := AddHost(byJa4c, f.ja4Client, f.srcIp);
      }
      if f.ja3Server != "" {
        byHost := AddServer(byHost, f.dstIp, f.ja3Server);
        byJa3s := AddHost(byJa3s, f.ja3Server, f.dstIp);
      }
      i := i + 1;
    }
    assert flows[..i] == flows;
    IndexesAreConverse(flows);
  }
}
