/** Identifiers of kernel objects.  Chain, set and comment names are kept in
    structured form; module Naming renders chain identifiers as the strings the
    daemon sends and states when that rendering is injective. */
module Ids {

  datatype Option<+T> = None | Some(value: T)

  datatype Dir = Ingress | Egress

  datatype Family = Inet | OtherFamily(id: nat)

  datatype TableName =
    | ManagedFilter          // "multi-networkpolicy-filter"
    | ManagedNat             // "multi-networkpolicy-nat"
    | LegacyFilter           // "filter"
    | LegacyNat              // "nat"
    | OtherName(text: string)

  datatype TableId = TableId(family: Family, name: TableName)

  const FILTER := TableId(Inet, ManagedFilter)
  const NAT := TableId(Inet, ManagedNat)

  predicate Managed(t: TableId) {
    t == FILTER || t == NAT
  }

  datatype PolicyKey = PolicyKey(ns: string, name: string)

  datatype Proto = TCP | UDP | SCTP

  datatype Hook = InputHook | OutputHook | PreroutingHook

  datatype ChainId =
    | BaseChain(hook: Hook)
    | EntryChain(dir: Dir)                                 // multi-ingress, multi-egress
    | CommonChain(dir: Dir)                                // multi-ingress-common, ...
    | PolicyChain(dir: Dir, key: PolicyKey)
    | PortsChain(dir: Dir, key: PolicyKey, index: nat)
    | PeersChain(dir: Dir, key: PolicyKey, index: nat)
    | OtherChain(text: string)

  datatype SetId =
    | PodInterfaces
    | NdpTypes
    | CommonSet(dir: Dir, v6: bool)
    | PortsSet(dir: Dir, key: PolicyKey, index: nat, proto: Proto)
    | BlockSet(dir: Dir, key: PolicyKey, index: nat, peer: nat, v6: bool)
    | ExceptSet(dir: Dir, key: PolicyKey, index: nat, peer: nat, v6: bool)
    | SelectorSet(dir: Dir, key: PolicyKey, index: nat, peer: nat, v6: bool, selector: string)
    | OtherSet(text: string)

  /** An address prefix as netip.ParsePrefix returns it (address not yet masked). */
  datatype Prefix = Prefix(v6: bool, addr: nat, bits: nat)

  datatype Comment =
    | NoComment
    | InterfaceFilterNote(hook: Hook)
    | CommonJumpNote(dir: Dir)
    | InterfaceJumpNote(dir: Dir, key: PolicyKey, netattach: string, iface: string, cni: string)
    | PolicyMarkNote(key: PolicyKey)
    | ResetNote(dir: Dir, key: PolicyKey, index: nat)
    | ReturnNote(dir: Dir, key: PolicyKey, index: nat)
    | JumpNote(key: PolicyKey, target: ChainId)
    | PortsNote(set_: SetId)
    | CidrNote(dir: Dir, key: PolicyKey, index: nat, cidr: Prefix, accept: bool)
    | SelectorNote(dir: Dir, key: PolicyKey, index: nat, selector: string, v6: bool)
    | AcceptAllNote(chain: ChainId)
    | IcmpNote(v6: bool)
    | NdpNote
    | PrefixNote(set_: SetId)
    | ConntrackNote
    | DropNote
    | TextNote(text: string)

  function HookOf(d: Dir): Hook {
    match d
    case Ingress => InputHook
    case Egress => OutputHook
  }
}
