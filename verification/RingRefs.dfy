// The ring branches devices follow, locally and on the remote, keyed by group
// (ports.RefUpdater as the rollout service and enrolment use it).
module RingRefs {
  class Refs {
    const faulty: bool  // git and the network may fail
    var local: map<string, string>
    var remote: map<string, string>

    constructor (faulty: bool, local: map<string, string>, remote: map<string, string>)
      ensures this.faulty == faulty && this.local == local && this.remote == remote
    {
      this.faulty, this.local, this.remote := faulty, local, remote;
    }

    method SetRef(group: string, rev: string) returns (ok: bool)
      modifies this`local
      ensures local == if ok then old(local)[group := rev] else old(local)
      ensures !ok ==> faulty
    {
      ok := *;
      ok := ok || !faulty;
      if ok {
        local := local[group := rev];
      }
    }

    /** A forced push; one that reports failure may have arrived all the same. */
    method PushRef(group: string) returns (ok: bool)
      modifies this`remote
      ensures ok ==> group in local && remote == old(remote)[group := local[group]]
      ensures remote == old(remote) || (group in local && remote == old(remote)[group := local[group]])
      ensures !ok ==> faulty || group !in local
    {
      ok := *;
      ok := ok || !faulty;
      if group !in local {
        return false;
      }
      var arrived := *;
      if ok || arrived {
        remote := remote[group := local[group]];
      }
    }
  }
}
