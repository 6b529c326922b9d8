/** Identifiers and small value types shared by every part of the node. */
module Basics {
  type Byte = b: int | 0 <= b < 256

  /** A transport identity: the multihash bytes libp2p derives from a transport key. */
  datatype PeerId = PeerId(multihash: seq<Byte>)

  /** An application or transport public key, by its protobuf encoding. */
  datatype PublicKey = PublicKey(protobuf: seq<Byte>)

  type Signature = seq<Byte>

  type ConnectionId = nat

  datatype Protocol = Protocol(tag: string, argument: string)

  datatype Multiaddr = Multiaddr(protocolStack: seq<Protocol>)

  datatype Option<+T> = None | Some(value: T) {
    function GetOr(default: T): (r: T) {
      if Some? then value else default
    }
  }

  /** `HashMap::get(..).cloned()`. */
  function Lookup<K, V>(m: map<K, V>, k: K): (r: Option<V>)
    ensures r.Some? <==> k in m
    ensures k in m ==> r == Some(m[k])
  {
    if k in m then Some(m[k]) else None
  }
}
