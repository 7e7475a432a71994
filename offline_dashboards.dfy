/** The offline dashboards (user, subscriber and admin pages): every list is
    edited in place in the page, with no server behind it. Uploaded files come
    back from a FileReader as data URLs, which become both the image shown and
    the value of the `<option>` added for it. */
module OfflineDashboards {
  import opened Wrappers
  import opened NodeLists
  import Text

  /** A file picked in an `<input type=file>`, with the data URL that
      `FileReader.readAsDataURL` produces for it. */
  datatype LocalFile = LocalFile(name: string, dataUrl: string)

  datatype SelectOption = SelectOption(value: string, text: string)

  /** A `<video>` preview: its `src` and whether its panel is displayed. */
  datatype Preview = Preview(src: string, visible: bool)

  const Hidden := Preview("", false)

  /** `select.value`: the value of the selected option, "" when none is selected. */
  function SelectValue(options: seq<Node<SelectOption>>, selected: int): string {
    if 0 <= selected < |options| then options[selected].data.value else ""
  }

  /** A select's initial options from the page markup, numbered from 0. */
  function Numbered(options: seq<SelectOption>): (r: seq<Node<SelectOption>>)
    ensures |r| == |options| && UniqueIds(r) && IdsBelow(r, |options|)
    ensures forall i :: 0 <= i < |r| ==> r[i].data == options[i]
  {
    seq(|options|, i requires 0 <= i < |options| => Node(i, options[i]))
  }

  // ---------------------------------------------------------------------
  // The subscriber page's avatar delete: a forward index loop over the
  // select's options that calls select.remove(i) on each match.
  // ---------------------------------------------------------------------

  /** What the forward loop leaves, in closed form: an option matching `v` is
      dropped and the option right after it is kept without being looked at. */
  function SkipRemove(s: seq<Node<SelectOption>>, v: string): seq<Node<SelectOption>> {
    if s == [] then []
    else if s[0].data.value == v then (if |s| == 1 then [] else [s[1]] + SkipRemove(s[2..], v))
    else [s[0]] + SkipRemove(s[1..], v)
  }

  /** The options whose value is not `v`, in order. */
  function Others(s: seq<Node<SelectOption>>, v: string): (r: seq<Node<SelectOption>>)
    ensures forall i :: 0 <= i < |r| ==> r[i].data.value != v
  {
    if s == [] then []
    else if s[0].data.value == v then Others(s[1..], v)
    else [s[0]] + Others(s[1..], v)
  }

  lemma StepOverMatch(r: seq<Node<SelectOption>>, i: nat, v: string)
    requires i + 1 < |r| && r[i].data.value == v
    ensures (r[..i] + r[i + 1..])[..i + 1] + SkipRemove((r[..i] + r[i + 1..])[i + 1..], v) == r[..i] + SkipRemove(r[i..], v)
  {
    assert r[i..][2..] == r[i + 2..];
    assert (r[..i] + r[i + 1..])[..i + 1] == r[..i] + [r[i + 1]];
    assert (r[..i] + r[i + 1..])[i + 1..] == r[i + 2..];
  }

  lemma StepOverLastMatch(r: seq<Node<SelectOption>>, i: nat, v: string)
    requires i + 1 == |r| && r[i].data.value == v
    ensures r[..i] + r[i + 1..] == r[..i] + SkipRemove(r[i..], v)
  {
    assert r[i..] == [r[i]];
  }

  lemma StepOverOther(r: seq<Node<SelectOption>>, i: nat, v: string)
    requires i < |r| && r[i].data.value != v
    ensures r[..i + 1] + SkipRemove(r[i + 1..], v) == r[..i] + SkipRemove(r[i..], v)
  {
    assert r[i..][1..] == r[i + 1..];
    assert r[..i + 1] == r[..i] + [r[i]];
  }

  /** The loop of the delete handler, run on one select's options. */
  method RemoveMatchingForward(options: seq<Node<SelectOption>>, v: string) returns (r: seq<Node<SelectOption>>)
    ensures r == SkipRemove(options, v)
  {
    r := options;
    var i := 0;
    while i < |r|
      invariant 0 <= i <= |r| + 1
      invariant i <= |r| ==> r[..i] + SkipRemove(r[i..], v) == SkipRemove(options, v)
      invariant i == |r| + 1 ==> r == SkipRemove(options, v)
      decreases |r| + 1 - i
    {
      if r[i].data.value == v {
        if i + 1 < |r| {
          StepOverMatch(r, i, v);
        } else {
          StepOverLastMatch(r, i, v);
        }
        r := r[..i] + r[i + 1..];
      } else {
        StepOverOther(r, i, v);
      }
      i := i + 1;
    }
    if i == |r| {
      assert r[..i] == r && r[i..] == [];
    }
  }

  /** Options with another value survive, in their relative order. */
  lemma {:induction false} SkipRemoveKeepsOthers(s: seq<Node<SelectOption>>, v: string)
    ensures Others(SkipRemove(s, v), v) == Others(s, v)
  {
    if s == [] {
    } else if s[0].data.value == v {
      if |s| == 1 {
      } else {
        SkipRemoveKeepsOthers(s[2..], v);
        assert ([s[1]] + SkipRemove(s[2..], v))[1..] == SkipRemove(s[2..], v);
        assert s[1..][1..] == s[2..];
      }
    } else {
      SkipRemoveKeepsOthers(s[1..], v);
      assert ([s[0]] + SkipRemove(s[1..], v))[1..] == SkipRemove(s[1..], v);
    }
  }

  /** The quirk: after a matching option is removed, the option that moved into
      its place is skipped, so it survives even when it matches too. */
  lemma {:induction false} SkipRemoveSparesNext(p: seq<Node<SelectOption>>, x: Node<SelectOption>,
                                                  y: Node<SelectOption>, t: seq<Node<SelectOption>>, v: string)
    requires forall i :: 0 <= i < |p| ==> p[i].data.value != v
    requires x.data.value == v
    ensures SkipRemove(p + [x, y] + t, v) == p + [y] + SkipRemove(t, v)
  {
    if p == [] {
      assert ([x, y] + t)[2..] == t;
    } else {
      SkipRemoveSparesNext(p[1..], x, y, t, v);
      assert (p + [x, y] + t)[1..] == p[1..] + [x, y] + t;
    }
  }

  /** The loop does remove every matching option when no two of them are adjacent. */
  lemma {:induction false} SkipRemoveCompleteWhenApart(s: seq<Node<SelectOption>>, v: string)
    requires forall i :: 0 <= i < |s| - 1 ==> !(s[i].data.value == v && s[i + 1].data.value == v)
    ensures SkipRemove(s, v) == Others(s, v)
  {
    if s == [] {
    } else if s[0].data.value == v {
      if |s| > 1 {
        assert s[1].data.value != v;
        SkipRemoveCompleteWhenApart(s[2..], v);
        assert s[1..][1..] == s[2..];
        assert s[1..][0] == s[1];
      }
    } else {
      forall i | 0 <= i < |s[1..]| - 1 ensures !(s[1..][i].data.value == v && s[1..][i + 1].data.value == v) {
        assert s[1..][i] == s[i + 1] && s[1..][i + 1] == s[i + 2];
      }
      SkipRemoveCompleteWhenApart(s[1..], v);
    }
  }

  /** A concrete case: two uploads of the same file, then one delete, leave one
      of the two matching options in the select. */
  lemma DuplicateUploadLeavesOption(placeholder: Node<SelectOption>, a: Node<SelectOption>, b: Node<SelectOption>)
    requires placeholder.data.value == "" && a.data.value == b.data.value != ""
    ensures SkipRemove([placeholder, a, b], a.data.value) == [placeholder, b]
  {
    SkipRemoveSparesNext([placeholder], a, b, [], a.data.value);
    assert [placeholder] + [a, b] + [] == [placeholder, a, b];
    assert [placeholder] + [b] + SkipRemove([], a.data.value) == [placeholder, b];
  }

  // ---------------------------------------------------------------------
  // User dashboard
  // ---------------------------------------------------------------------

  /** A gallery card of the user page; `option` is the `<option>` its delete
      button also removes. */
  datatype UserAvatar = UserAvatar(src: string, option: nat)

  /** Every card's option is in the select, and no two cards share one. */
  predicate Linked(gallery: seq<Node<UserAvatar>>, options: seq<Node<SelectOption>>) {
    && (forall i :: 0 <= i < |gallery| ==> gallery[i].data.option in Ids(options))
    && (forall i, j :: 0 <= i < j < |gallery| ==> gallery[i].data.option != gallery[j].data.option)
  }

  lemma LinkedAfterDelete(g: seq<Node<UserAvatar>>, options: seq<Node<SelectOption>>, k: nat)
    requires Linked(g, options) && k < |g|
    ensures Linked(g[..k] + g[k + 1..], Remove(options, g[k].data.option))
  {
    var g', r := g[..k] + g[k + 1..], Remove(options, g[k].data.option);
    forall i | 0 <= i < |g'| ensures g'[i].data.option in Ids(r) {
      var i' := if i < k then i else i + 1;
      assert g'[i] == g[i'];
      var q :| 0 <= q < |options| && options[q].id == g[i'].data.option;
      assert options[q] in r;
      var x :| 0 <= x < |r| && r[x] == options[q];
      assert r[x].id in Ids(r);
    }
    forall i, j | 0 <= i < j < |g'| ensures g'[i].data.option != g'[j].data.option {
      var i', j' := (if i < k then i else i + 1), (if j < k then j else j + 1);
      assert g'[i] == g[i'] && g'[j] == g[j'];
    }
  }

  lemma LinkedAfterUpload(g: seq<Node<UserAvatar>>, options: seq<Node<SelectOption>>,
                          card: Node<UserAvatar>, option: Node<SelectOption>)
    requires Linked(g, options) && card.data.option == option.id && option.id !in Ids(options)
    ensures Linked(g + [card], options + [option])
  {
    var g', o' := g + [card], options + [option];
    assert o'[|options|] == option;
    forall i | 0 <= i < |g'| ensures g'[i].data.option in Ids(o') {
      if i < |g| {
        var q :| 0 <= q < |options| && options[q].id == g[i].data.option;
        assert o'[q] == options[q];
      }
    }
  }

  class UserPage {
    var gallery: seq<Node<UserAvatar>>            // #avatarList
    var avatarOptions: seq<Node<SelectOption>>    // #avatarSelect
    var animations: seq<Node<string>>             // #animationList, one video src per card
    var preview: Preview                          // #previewVideo and #animationPreview
    var chosen: seq<LocalFile>                    // #avatarUpload's files
    var nextId: nat                               // identity of the next element created

    ghost predicate Valid()
      reads this
    {
      && UniqueIds(gallery) && IdsBelow(gallery, nextId)
      && UniqueIds(avatarOptions) && IdsBelow(avatarOptions, nextId)
      && UniqueIds(animations) && IdsBelow(animations, nextId)
      && Linked(gallery, avatarOptions)
    }

    constructor (options0: seq<SelectOption>)
      ensures Valid()
      ensures gallery == [] && animations == [] && chosen == [] && preview == Hidden
      ensures avatarOptions == Numbered(options0)
    {
      gallery := [];
      avatarOptions := Numbered(options0);
      animations := [];
      preview := Hidden;
      chosen := [];
      nextId := |options0|;
    }

    /** The user picking files in the upload input. */
    method Choose(files: seq<LocalFile>)
      modifies this`chosen
      ensures chosen == files
    {
      chosen := files;
    }

    /** Upload click (with the reader's load event): with no file nothing
        changes; otherwise one card and one option, both carrying the first
        file's data URL, are appended and the input is cleared. Returns the
        card's position, for its delete button. */
    method UploadAvatar() returns (card: Option<nat>)
      requires Valid()
      modifies this`gallery, this`avatarOptions, this`chosen, this`nextId
      ensures Valid()
      ensures old(chosen) == [] ==>
        card == None && gallery == old(gallery) && avatarOptions == old(avatarOptions) &&
        chosen == old(chosen) && nextId == old(nextId)
      ensures old(chosen) != [] ==>
        var f := old(chosen)[0];
        && gallery == old(gallery) + [Node(old(nextId), UserAvatar(f.dataUrl, old(nextId) + 1))]
        && avatarOptions == old(avatarOptions) + [Node(old(nextId) + 1, SelectOption(f.dataUrl, f.name))]
        && chosen == [] && card == Some(|old(gallery)|)
    {
      if chosen == [] {
        return None;
      }
      var file := chosen[0];
      var divId, optionId := nextId, nextId + 1;
      var avatarDiv := Node(divId, UserAvatar(file.dataUrl, optionId));
      var option := Node(optionId, SelectOption(file.dataUrl, file.name));
      LinkedAfterUpload(gallery, avatarOptions, avatarDiv, option);
      AppendFresh(gallery, nextId, avatarDiv.data);
      AppendFresh(avatarOptions, nextId + 1, option.data);
      nextId := nextId + 2;
      gallery := gallery + [avatarDiv];
      avatarOptions := avatarOptions + [option];
      chosen := [];
      card := Some(|gallery| - 1);
    }

    /** The delete button of the card at position `k`: removes that card and its
        option and nothing else. */
    method DeleteAvatar(k: nat)
      requires Valid() && k < |gallery|
      modifies this`gallery, this`avatarOptions
      ensures Valid()
      ensures gallery == old(gallery[..k] + gallery[k + 1..])
      ensures avatarOptions == Remove(old(avatarOptions), old(gallery[k].data.option))
      ensures |avatarOptions| == |old(avatarOptions)| - 1
    {
      var card := gallery[k];
      RemoveExactlyOne(gallery, k);
      var o :| 0 <= o < |avatarOptions| && avatarOptions[o].id == card.data.option;
      RemoveExactlyOne(avatarOptions, o);
      LinkedAfterDelete(gallery, avatarOptions, k);
      RemoveKeepsUnique(gallery, card.id, nextId);
      RemoveKeepsUnique(avatarOptions, card.data.option, nextId);
      gallery := Remove(gallery, card.id);
      avatarOptions := Remove(avatarOptions, card.data.option);
    }

    /** Generate: with an avatar and an expression chosen, the preview shows the
        avatar's data URL (a placeholder for a generated video); otherwise
        nothing changes. */
    method Generate(selectedAvatar: int, expression: string)
      modifies this`preview
      ensures var avatar := SelectValue(avatarOptions, selectedAvatar);
              if avatar == "" || expression == "" then preview == old(preview)
              else preview == Preview(avatar, true)
    {
      var avatarSrc := SelectValue(avatarOptions, selectedAvatar);
      if avatarSrc == "" || expression == "" {
        return;
      }
      preview := Preview(avatarSrc, true);
    }

    /** Save: appends one animation card with the preview's current `src` and
        hides the panel, whether or not a preview was showing. */
    method SaveAnimation() returns (card: nat)
      requires Valid()
      modifies this`animations, this`preview, this`nextId
      ensures Valid()
      ensures animations == old(animations) + [Node(old(nextId), old(preview).src)]
      ensures preview == old(preview).(visible := false)
      ensures card == |old(animations)|
    {
      animations := animations + [Node(nextId, preview.src)];
      nextId := nextId + 1;
      preview := preview.(visible := false);
      card := |animations| - 1;
    }

    /** Cancel hides the panel and keeps the preview's `src`. */
    method CancelPreview()
      modifies this`preview
      ensures preview == old(preview).(visible := false)
    {
      preview := preview.(visible := false);
    }

    /** The delete button of the animation card at position `k`. */
    method DeleteAnimation(k: nat)
      requires Valid() && k < |animations|
      modifies this`animations
      ensures Valid()
      ensures animations == old(animations[..k] + animations[k + 1..])
    {
      RemoveExactlyOne(animations, k);
      RemoveKeepsUnique(animations, animations[k].id, nextId);
      animations := Remove(animations, animations[k].id);
    }
  }

  /** Saving twice without generating in between appends two cards with the same source. */
  method SaveTwiceAppendsTwice(page: UserPage)
    requires page.Valid()
    modifies page`animations, page`preview, page`nextId
  {
    var src := page.preview.src;
    var n := |page.animations|;
    var _ := page.SaveAnimation();
    var _ := page.SaveAnimation();
    assert |page.animations| == n + 2;
    assert page.animations[n].data == src && page.animations[n + 1].data == src;
  }

  // ---------------------------------------------------------------------
  // Subscriber dashboard
  // ---------------------------------------------------------------------

  class SubscriberPage {
    var gallery: seq<Node<string>>                // #avatarList, one data URL per card
    var step1Options: seq<Node<SelectOption>>     // #avatarSelectStep1
    var sourceOptions: seq<Node<SelectOption>>    // #sourceAvatarSelect
    var animations: seq<Node<string>>             // #animationList
    var step1Preview: Preview                     // #previewStep1Video and #step1Preview
    var generated: Preview                        // #previewVideoGenerated and #animationPreview
    var chosen: seq<LocalFile>                    // #avatarUpload's files
    var drivingVideos: seq<LocalFile>             // #drivingVideoUpload's files
    var nextId: nat

    ghost predicate Valid()
      reads this
    {
      && UniqueIds(gallery) && IdsBelow(gallery, nextId)
      && UniqueIds(step1Options) && IdsBelow(step1Options, nextId)
      && UniqueIds(sourceOptions) && IdsBelow(sourceOptions, nextId)
      && UniqueIds(animations) && IdsBelow(animations, nextId)
    }

    constructor (step1Options0: seq<SelectOption>, sourceOptions0: seq<SelectOption>)
      ensures Valid()
      ensures gallery == [] && animations == [] && chosen == [] && drivingVideos == []
      ensures step1Preview == Hidden && generated == Hidden
      ensures step1Options == Numbered(step1Options0) && sourceOptions == Numbered(sourceOptions0)
    {
      gallery, animations, chosen, drivingVideos := [], [], [], [];
      step1Preview, generated := Hidden, Hidden;
      step1Options := Numbered(step1Options0);
      sourceOptions := Numbered(sourceOptions0);
      nextId := |step1Options0| + |sourceOptions0|;
    }

    /** The user picking files in the avatar and driving-video inputs. */
    method Choose(avatars: seq<LocalFile>, videos: seq<LocalFile>)
      modifies this`chosen, this`drivingVideos
      ensures chosen == avatars && drivingVideos == videos
    {
      chosen, drivingVideos := avatars, videos;
    }

    /** Upload: with no file nothing changes; otherwise one card and one option
        in each of the two selects, all carrying the file's data URL. */
    method UploadAvatar() returns (card: Option<nat>)
      requires Valid()
      modifies this`gallery, this`step1Options, this`sourceOptions, this`chosen, this`nextId
      ensures Valid()
      ensures old(chosen) == [] ==>
        card == None && gallery == old(gallery) && step1Options == old(step1Options) &&
        sourceOptions == old(sourceOptions) && chosen == old(chosen) && nextId == old(nextId)
      ensures old(chosen) != [] ==>
        var f := old(chosen)[0];
        && gallery == old(gallery) + [Node(old(nextId), f.dataUrl)]
        && step1Options == old(step1Options) + [Node(old(nextId) + 1, SelectOption(f.dataUrl, f.name))]
        && sourceOptions == old(sourceOptions) + [Node(old(nextId) + 2, SelectOption(f.dataUrl, f.name))]
        && chosen == [] && card == Some(|old(gallery)|)
    {
      if chosen == [] {
        return None;
      }
      var file := chosen[0];
      var option := SelectOption(file.dataUrl, file.name);
      AppendFresh(gallery, nextId, file.dataUrl);
      AppendFresh(step1Options, nextId + 1, option);
      AppendFresh(sourceOptions, nextId + 2, option);
      gallery := gallery + [Node(nextId, file.dataUrl)];
      step1Options := step1Options + [Node(nextId + 1, option)];
      sourceOptions := sourceOptions + [Node(nextId + 2, option)];
      nextId := nextId + 3;
      chosen := [];
      card := Some(|gallery| - 1);
    }

    /** The delete button of the card at position `k`: removes the card, then
        runs the forward removal loop on each select with the card's data URL. */
    method DeleteAvatar(k: nat)
      requires Valid() && k < |gallery|
      modifies this`gallery, this`step1Options, this`sourceOptions
      ensures Valid()
      ensures gallery == old(gallery[..k] + gallery[k + 1..])
      ensures step1Options == SkipRemove(old(step1Options), old(gallery[k].data))
      ensures sourceOptions == SkipRemove(old(sourceOptions), old(gallery[k].data))
    {
      var card := gallery[k];
      RemoveExactlyOne(gallery, k);
      RemoveKeepsUnique(gallery, card.id, nextId);
      gallery := Remove(gallery, card.id);
      SkipRemoveDrawnFromInput(step1Options, card.data, nextId);
      SkipRemoveDrawnFromInput(sourceOptions, card.data, nextId);
      step1Options := RemoveMatchingForward(step1Options, card.data);
      sourceOptions := RemoveMatchingForward(sourceOptions, card.data);
    }

    /** Step 1 prepare: needs an expression and an avatar; the preview then shows the avatar. */
    method PrepareStep1(selectedAvatar: int, expression: string)
      modifies this`step1Preview
      ensures var avatar := SelectValue(step1Options, selectedAvatar);
              if expression == "" || avatar == "" then step1Preview == old(step1Preview)
              else step1Preview == Preview(avatar, true)
    {
      var avatar := SelectValue(step1Options, selectedAvatar);
      if expression == "" || avatar == "" {
        return;
      }
      step1Preview := Preview(avatar, true);
    }

    /** Step 1 save: one card with the preview's `src`; the panel is hidden. */
    method SaveStep1()
      requires Valid()
      modifies this`animations, this`step1Preview, this`nextId
      ensures Valid()
      ensures animations == old(animations) + [Node(old(nextId), old(step1Preview).src)]
      ensures step1Preview == old(step1Preview).(visible := false)
    {
      animations := animations + [Node(nextId, step1Preview.src)];
      nextId := nextId + 1;
      step1Preview := step1Preview.(visible := false);
    }

    /** Step 1 cancel: hides the panel and clears the preview's `src`. */
    method CancelStep1()
      modifies this`step1Preview
      ensures step1Preview == Hidden
    {
      step1Preview := Preview("", false);
    }

    /** Step 2 generate: needs an avatar and a driving video; the preview then
        shows the video's object URL (`objectUrl`, from URL.createObjectURL). */
    method Generate(selectedSource: int, objectUrl: string)
      modifies this`generated
      ensures var avatar := SelectValue(sourceOptions, selectedSource);
              if avatar == "" || drivingVideos == [] then generated == old(generated)
              else generated == Preview(objectUrl, true)
    {
      var avatar := SelectValue(sourceOptions, selectedSource);
      if avatar == "" {
        return;
      }
      if drivingVideos == [] {
        return;
      }
      generated := Preview(objectUrl, true);
    }

    /** Step 2 save: one card with the generated preview's `src`; the panel is hidden. */
    method SaveGenerated()
      requires Valid()
      modifies this`animations, this`generated, this`nextId
      ensures Valid()
      ensures animations == old(animations) + [Node(old(nextId), old(generated).src)]
      ensures generated == old(generated).(visible := false)
    {
      animations := animations + [Node(nextId, generated.src)];
      nextId := nextId + 1;
      generated := generated.(visible := false);
    }

    /** Step 2 cancel: hides the panel and clears the preview's `src`. */
    method CancelGenerated()
      modifies this`generated
      ensures generated == Hidden
    {
      generated := Preview("", false);
    }

    /** The delete button of the animation card at position `k`. */
    method DeleteAnimation(k: nat)
      requires Valid() && k < |animations|
      modifies this`animations
      ensures Valid()
      ensures animations == old(animations[..k] + animations[k + 1..])
    {
      RemoveExactlyOne(animations, k);
      RemoveKeepsUnique(animations, animations[k].id, nextId);
      animations := Remove(animations, animations[k].id);
    }
  }

  /** What the forward loop leaves is drawn from the select's own options. */
  lemma {:induction false} SkipRemoveDrawnFromInput(s: seq<Node<SelectOption>>, v: string, bound: nat)
    requires UniqueIds(s) && IdsBelow(s, bound)
    ensures UniqueIds(SkipRemove(s, v)) && IdsBelow(SkipRemove(s, v), bound)
    ensures forall i :: 0 <= i < |SkipRemove(s, v)| ==> SkipRemove(s, v)[i] in s
  {
    if s == [] {
    } else if s[0].data.value == v {
      if |s| > 1 {
        assert UniqueIds(s[2..]) by {
          forall i, j | 0 <= i < j < |s[2..]| ensures s[2..][i].id != s[2..][j].id {
            assert s[2..][i] == s[i + 2] && s[2..][j] == s[j + 2];
          }
        }
        SkipRemoveDrawnFromInput(s[2..], v, bound);
        var t := SkipRemove(s[2..], v);
        forall i | 0 <= i < |t| ensures t[i].id != s[1].id && t[i] in s {
          var q :| 0 <= q < |s[2..]| && s[2..][q] == t[i];
          assert s[2..][q] == s[q + 2];
        }
      }
    } else {
      assert UniqueIds(s[1..]) by {
        forall i, j | 0 <= i < j < |s[1..]| ensures s[1..][i].id != s[1..][j].id {
          assert s[1..][i] == s[i + 1] && s[1..][j] == s[j + 1];
        }
      }
      SkipRemoveDrawnFromInput(s[1..], v, bound);
      var t := SkipRemove(s[1..], v);
      forall i | 0 <= i < |t| ensures t[i].id != s[0].id && t[i] in s {
        var q :| 0 <= q < |s[1..]| && s[1..][q] == t[i];
        assert s[1..][q] == s[q + 1];
      }
    }
  }

  // ---------------------------------------------------------------------
  // Admin dashboard
  // ---------------------------------------------------------------------

  datatype UserCard = UserCard(name: string, email: string)

  class AdminPage {
    var users: seq<Node<UserCard>>            // #userList
    var expressions: seq<Node<string>>        // #expressionList
    var expressionName: string                // #expressionName input
    var avatars: seq<Node<string>>            // #adminAvatarList
    var chosen: seq<LocalFile>                // #adminAvatarUpload's files
    var nextId: nat

    ghost predicate Valid()
      reads this
    {
      && UniqueIds(users) && IdsBelow(users, nextId)
      && UniqueIds(expressions) && IdsBelow(expressions, nextId)
      && UniqueIds(avatars) && IdsBelow(avatars, nextId)
    }

    constructor ()
      ensures Valid()
      ensures users == [] && expressions == [] && avatars == [] && chosen == [] && expressionName == ""
    {
      users, expressions, avatars, chosen := [], [], [], [];
      expressionName := "";
      nextId := 0;
    }

    /** The user typing in the expression input and picking avatar files. */
    method Enter(name: string, files: seq<LocalFile>)
      modifies this`expressionName, this`chosen
      ensures expressionName == name && chosen == files
    {
      expressionName, chosen := name, files;
    }

    /** Create user: `name` and `email` are what the two prompts returned
        (`None` when a prompt was cancelled); a card is appended only when both
        are non-empty. */
    method CreateUser(name: Option<string>, email: Option<string>)
      requires Valid()
      modifies this`users, this`nextId
      ensures Valid()
      ensures name.Some? && name.value != "" && email.Some? && email.value != "" ==>
                users == old(users) + [Node(old(nextId), UserCard(name.value, email.value))]
      ensures !(name.Some? && name.value != "" && email.Some? && email.value != "") ==>
                users == old(users) && nextId == old(nextId)
    {
      if name.Some? && name.value != "" && email.Some? && email.value != "" {
        users := users + [Node(nextId, UserCard(name.value, email.value))];
        nextId := nextId + 1;
      }
    }

    /** The delete button of the user card at position `k`. */
    method DeleteUser(k: nat)
      requires Valid() && k < |users|
      modifies this`users
      ensures Valid()
      ensures users == old(users[..k] + users[k + 1..])
    {
      RemoveExactlyOne(users, k);
      RemoveKeepsUnique(users, users[k].id, nextId);
      users := Remove(users, users[k].id);
    }

    /** Add expression: nothing happens when the trimmed input is empty;
        otherwise the trimmed name is appended and the input cleared. */
    method AddExpression()
      requires Valid()
      modifies this`expressions, this`expressionName, this`nextId
      ensures Valid()
      ensures Text.AllWhitespace(old(expressionName)) ==>
                expressions == old(expressions) && expressionName == old(expressionName) && nextId == old(nextId)
      ensures !Text.AllWhitespace(old(expressionName)) ==>
                && expressions == old(expressions) + [Node(old(nextId), Text.Trim(old(expressionName)))]
                && expressionName == ""
    {
      var name := Text.Trim(expressionName);
      if name == "" {
        return;
      }
      expressions := expressions + [Node(nextId, name)];
      nextId := nextId + 1;
      expressionName := "";
    }

    /** The delete button of the expression at position `k`. */
    method DeleteExpression(k: nat)
      requires Valid() && k < |expressions|
      modifies this`expressions
      ensures Valid()
      ensures expressions == old(expressions[..k] + expressions[k + 1..])
    {
      RemoveExactlyOne(expressions, k);
      RemoveKeepsUnique(expressions, expressions[k].id, nextId);
      expressions := Remove(expressions, expressions[k].id);
    }

    /** Add avatar: with no file nothing changes; otherwise one card with the
        file's data URL is appended and the input cleared. */
    method AddAvatar()
      requires Valid()
      modifies this`avatars, this`chosen, this`nextId
      ensures Valid()
      ensures old(chosen) == [] ==> avatars == old(avatars) && chosen == old(chosen) && nextId == old(nextId)
      ensures old(chosen) != [] ==> avatars == old(avatars) + [Node(old(nextId), old(chosen)[0].dataUrl)] && chosen == []
    {
      if chosen == [] {
        return;
      }
      avatars := avatars + [Node(nextId, chosen[0].dataUrl)];
      nextId := nextId + 1;
      chosen := [];
    }

    /** The delete button of the avatar card at position `k`. */
    method DeleteAvatar(k: nat)
      requires Valid() && k < |avatars|
      modifies this`avatars
      ensures Valid()
      ensures avatars == old(avatars[..k] + avatars[k + 1..])
    {
      RemoveExactlyOne(avatars, k);
      RemoveKeepsUnique(avatars, avatars[k].id, nextId);
      avatars := Remove(avatars, avatars[k].id);
    }
  }
}
