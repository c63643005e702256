/** Values shared by every part of the model. */
module Types {

  datatype Option<+T> = None | Some(value: T)

  /** Addresses are compared, never computed with, so a number stands for one. */
  type Ip = nat

  /** A multicast tree is named by its source and its group. */
  datatype Tree = Tree(source: Ip, group: Ip)

  /** <BootTime, SN>: what every protocol message is stamped with. */
  datatype Stamp = Stamp(bootTime: nat, sn: nat)

  predicate Before(a: Stamp, b: Stamp) {
    a.bootTime < b.bootTime || (a.bootTime == b.bootTime && a.sn < b.sn)
  }

  predicate AtMost(a: Stamp, b: Stamp) {
    a == b || Before(a, b)
  }

  function Get<K, V>(m: map<K, V>, k: K): Option<V> {
    if k in m then Some(m[k]) else None
  }

  /** The dictionary lookup `m.get(k, d)`. */
  function GetOr<K, V>(m: map<K, V>, k: K, d: V): V {
    if k in m then m[k] else d
  }
}
