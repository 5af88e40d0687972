/** What each reply of `catena-restic-key.py` means, in terms of what the destination and
    the store hold: exactly when a request succeeds, and what it has then done. */
module ResticReplies {
  import opened Strings
  import opened Restic

  /** There is a repository at the destination, and the password opens it. */
  predicate Opens(w: World, x: Tools, password: string) {
    x.place(w.address) in w.repos && password in w.repos[x.place(w.address)].passwords
  }

  /** Neither a repository nor anything else is there. */
  predicate Vacant(w: World, x: Tools) {
    x.place(w.address) !in w.repos && x.place(w.address) !in w.files
  }

  /** A password is good exactly when it opens the repository at the saved address and
      restic gets through to say so; asking changes nothing. */
  lemma ValidateMeansOpens(w: World, x: Tools, password: string)
    ensures var e := Do(w, x, Validate(password));
            && (e.reply == Fine <==> password != "" && w.address != "" && x.cat && Opens(w, x, password))
            && e.reply in {Fine, Refused} && e.worlds == []
  {
  }

  /** The stored password can give way to another: there is one, it opens the repository
      at the saved address, and restic gets through. */
  predicate Rekeyable(w: World, x: Tools) {
    w.password != "" && w.address != "" && x.act && Opens(w, x, w.password)
  }

  /** The repository at the destination, under the new password in the old one's place. */
  predicate Rekeyed(w: World, x: Tools, password: string, after: World) {
    var p := x.place(w.address);
    && p in w.repos && p in after.repos
    && after.repos[p].passwords == w.repos[p].passwords - {w.password} + {password}
    && after.repos[p].backups == w.repos[p].backups && after.repos - {p} == w.repos - {p}
    && after.password == password && after.passFile == Some(password)
    && after == w.(repos := after.repos, password := after.password, passFile := after.passFile)
  }

  /** A rotation goes through exactly when nothing is held after a restore, a password is
      given, and the stored one can give way; then it has. Under a hold, or where it is
      refused, nothing has changed. */
  lemma RotateMeansRekeyed(w: World, x: Tools, password: string)
    ensures var e := Do(w, x, Rotate(password));
            && (e.reply == Fine <==> w.hold == None && password != "" && Rekeyable(w, x))
            && (e.reply == Fine ==> Rekeyed(w, x, password, Last(w, e)))
            && (e.reply != Fine ==> e == Effect([], Refused))
  {
    SetPasswordMeans(w, x, password);
  }

  lemma SetPasswordMeans(w: World, x: Tools, password: string)
    ensures var e := SetPassword(w, x, password);
            && (e.reply == Fine <==> Rekeyable(w, x))
            && (e.reply == Fine ==> Rekeyed(w, x, password, Last(w, e)))
            && (e.reply != Fine ==> e == Effect([], Refused))
  {
    var p := x.place(w.address);
    match Restic.Rekeyed(w, x, password)
    case None =>
    case Some(w1) =>
      assert w1.repos - {p} == w.repos - {p};
  }

  /** A destination is saved: an address and its keys. */
  predicate Saved(w: World) { w.address != "" && w.accessKey != "" && w.secretKey != "" }

  /** A repository is created exactly at a saved address that can be read and listed and
      holds nothing at all; then it is there, empty, under the stored password alone. */
  lemma InitMeansCreated(w: World, x: Tools)
    ensures var e := Do(w, x, Init);
            && (e.reply == Created <==>
                  Saved(w) && w.password != "" && Location(w.address) != None && x.cat && x.list && x.act && Vacant(w, x))
            && (e.reply == Exists <==> Saved(w) && w.password != "" && x.cat && Opens(w, x, w.password))
            && (e.reply == Created ==> Last(w, e) == w.(repos := w.repos[x.place(w.address) := Repo({w.password}, 0)]))
            && (e.reply != Created ==> e.worlds == []) && e.reply in {Created, Exists, Refused}
  {
  }

  /** No address is saved, or restic says that there is no repository at it. */
  predicate Untaken(w: World, x: Tools) {
    w.address == "" || (x.cat && x.place(w.address) !in w.repos)
  }

  /** The destination was changed since the restore. */
  predicate Elsewhere(w: World) {
    w.hold.Some? && Location(w.address).Some? && Location(w.address) != Location(w.hold.value.settings)
  }

  /** It is the one the restore brought back, to be started afresh. */
  predicate Fresh(w: World) {
    && w.hold.Some? && Location(w.address).Some? && Location(w.address) == Location(w.hold.value.settings)
    && w.hold.value.choice == "fresh"
  }

  /** A password is minted exactly where none is stored and no repository is in the way;
      or in place of the stored one, where the backups wait after a restore, for a new
      destination without a repository, or for the restored one by a re-key. */
  lemma GenerateMeansMinted(w: World, x: Tools, replace: bool)
    ensures var e := Do(w, x, Generate(replace));
            && (e.reply.Minted? <==>
                  if w.password == "" then Untaken(w, x)
                  else replace && ((Elsewhere(w) && Untaken(w, x)) || (Fresh(w) && Rekeyable(w, x))))
            && (e.reply.Minted? ==> e.reply == Minted(x.mint) && Last(w, e).password == x.mint)
            && (!e.reply.Minted? ==> e == Effect([], Refused))
  {
    SetPasswordMeans(w, x, x.mint);
    NoLocation(w.address);
  }

  lemma NoLocation(address: string)
    ensures Location(address).Some? ==> address != ""
  {
  }

  /** What minting has done: the store holds the new password, and so does the pass file
      where it replaces one; no repository but a re-keyed one has changed. */
  lemma MintedMeans(w: World, x: Tools, replace: bool)
    requires Do(w, x, Generate(replace)).reply.Minted?
    ensures var after := Last(w, Do(w, x, Generate(replace)));
            if w.password != "" && Fresh(w) then Rekeyed(w, x, x.mint, after)
            else after == w.(password := x.mint, passFile := if replace then Some(x.mint) else w.passFile)
  {
    SetPasswordMeans(w, x, x.mint);
  }
}
