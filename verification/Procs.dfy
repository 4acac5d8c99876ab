/** Who calls the daemon, and who is still alive. */
module Procs {

  /** What /proc says of a pid: the incarnation, and whether it has exited. */
  datatype Life = Life(start: nat, zombie: bool)

  type World = int -> Life

  /** The process that was `pid` at `start` is gone, or a zombie. */
  predicate Dead(world: World, pid: int, start: nat) {
    world(pid).start != start || world(pid).zombie
  }

  datatype Caller = Caller(pid: int, uid: nat, gid: nat)

  /** Root, an object's owner and its creator may change it. */
  predicate Owns(uid: nat, owner: nat, creator: nat) {
    uid == 0 || uid == owner || uid == creator
  }
}
