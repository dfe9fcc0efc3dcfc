/** The consensus messages replicas exchange. A payload is identified with its digest. */
module Messages {

  datatype Option<+T> = None | Some(value: T)

  type Digest = string

  datatype Kind = PrePrepare | Prepare | Commit

  datatype Request = Request(kind: Kind, view: nat, sn: nat, hash: Digest, sender: nat)

  datatype RequestInfo = RequestInfo(request: Request, signature: string)
}
