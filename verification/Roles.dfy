/** What a process does, as its options decide it. */
module Roles {

  datatype Options = Options(childProcessCount: int, childID: int, bootstrap: string)

  datatype Mode = PeerMode | ChildMode

  predicate StartsIPCService(o: Options) {
    o.childProcessCount > 0 && o.childID == 0
  }

  predicate StartsMain(o: Options) {
    StartsIPCService(o) || (o.childProcessCount == 0 && o.childID == 0)
  }

  predicate StartsP2P(o: Options) {
    o.bootstrap != "" && (o.childProcessCount == 0 || o.childID > 0)
  }

  predicate HasIPC(o: Options) {
    o.childProcessCount > 0 || o.childID > 0
  }

  function IpcMode(o: Options): Mode {
    if StartsMain(o) then PeerMode else ChildMode
  }

  /** How the receive loop treats a message. */
  function ReceiveMode(o: Options): Mode {
    if HasIPC(o) then IpcMode(o) else PeerMode
  }

  /** Whether it takes requests that its main process sends "down". */
  predicate ListensDown(o: Options) {
    StartsP2P(o) && o.childID > 0 && HasIPC(o)
  }

  /** For all options: a receive loop in peer mode never has an IPC client, so that it never
      sends what it received "up"; one in child mode always has one; and a process that
      takes requests and has an IPC client is in no p2p room itself. */
  lemma RolesExclude(o: Options)
    ensures StartsP2P(o) ==> (ReceiveMode(o).PeerMode? <==> !HasIPC(o))
    ensures StartsMain(o) && HasIPC(o) ==> !StartsP2P(o)
    ensures ListensDown(o) ==> !StartsMain(o) && ReceiveMode(o).ChildMode?
  {
  }

  /** The three ways in which processes are started: alone, as a main process with a number of
      children, and as a child, with its ID and whatever count. */
  lemma RolesAre(o: Options)
    ensures o.childProcessCount == 0 && o.childID == 0 ==>
              StartsMain(o) && !HasIPC(o) && ReceiveMode(o).PeerMode? && (StartsP2P(o) <==> o.bootstrap != "")
    ensures o.childProcessCount > 0 && o.childID == 0 ==>
              StartsMain(o) && StartsIPCService(o) && HasIPC(o) && !StartsP2P(o)
    ensures o.childID > 0 ==>
              !StartsMain(o) && !StartsIPCService(o) && HasIPC(o) && ReceiveMode(o).ChildMode?
              && (StartsP2P(o) <==> o.bootstrap != "") && (ListensDown(o) <==> o.bootstrap != "")
  {
  }
}
