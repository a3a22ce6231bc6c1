/**
 * The offline phrase catalog: six category groups of Chinese/Korean travel
 * phrases, the category metadata, the flattened catalog and its statistics.
 *
 * Each catalog id is spelled by IdFor(category, n) (`restaurant_01`,
 * `restaurant_02`, ...), which yields exactly the catalog's literal ids; the
 * texts are the catalog's own.
 */
module PhraseLibrary {
  import opened JsStrings
  import opened TranslationTypes

  /** The three texts of one catalog entry. */
  datatype Entry = Entry(zh: Text, ko: Text, romanization: Text)

  datatype CategoryMetadata = CategoryMetadata(icon: Text, name: Text, count: nat)

  datatype LibraryStats = LibraryStats(total: nat, categories: nat, breakdown: PhraseCategory -> nat)

  /** The key of a category as written in the catalog (`'restaurant'`, ...). */
  function CategoryKey(c: PhraseCategory): Text
  {
    match c
    case Restaurant => "restaurant"
    case Shopping => "shopping"
    case Transportation => "transportation"
    case Emergency => "emergency"
    case Accommodation => "accommodation"
    case Greeting => "greeting"
  }

  /** The categories in the key order of the metadata record. */
  const CategoryOrder: seq<PhraseCategory> :=
    [Restaurant, Shopping, Transportation, Emergency, Accommodation, Greeting]

  /** The category metadata record: icon, display name and declared count. */
  function CategoryInfo(c: PhraseCategory): CategoryMetadata
  {
    match c
    case Restaurant => CategoryMetadata("🍜", "餐厅", 35)
    case Shopping => CategoryMetadata("🛍️", "购物", 30)
    case Transportation => CategoryMetadata("🚇", "交通", 30)
    case Emergency => CategoryMetadata("🆘", "紧急", 25)
    case Accommodation => CategoryMetadata("🏨", "住宿", 30)
    case Greeting => CategoryMetadata("👋", "问候", 25)
  }

  function DecimalDigit(d: nat): char
    requires d < 10
  {
    "0123456789"[d]
  }

  /** The catalog id of the n-th entry (1-based) of a category: `<category>_NN`. */
  function IdFor(c: PhraseCategory, n: nat): Text
    requires n < 100
  {
    CategoryKey(c) + "_" + [DecimalDigit(n / 10), DecimalDigit(n % 10)]
  }

  /** A category group: entry i gets the id `<category>_NN` with NN = i + 1 and the category tag. */
  function Group(c: PhraseCategory, entries: seq<Entry>): seq<Phrase>
    requires |entries| < 99
  {
    seq(|entries|, i requires 0 <= i < |entries| =>
      Phrase(IdFor(c, i + 1), entries[i].zh, entries[i].ko, entries[i].romanization, c))
  }

  /** The texts of the restaurant group, in catalog order (src/data/phraseLibrary.ts:55-307). */
  const RestaurantEntries: seq<Entry> := [
    Entry("请问这个多少钱？", "이거 얼마예요?", "Igeo eolmayeyo?"),
    Entry("我要点这个", "이걸로 주문할게요", "Igeollo jumunhalgeyo"),
    Entry("太辣了", "너무 매워요", "Neomu maewoyo"),
    Entry("有素食吗？", "채식 있나요?", "Chaesik innayo?"),
    Entry("请给我菜单", "메뉴 주세요", "Menyu juseyo"),
    Entry("水，谢谢", "물 주세요", "Mul juseyo"),
    Entry("结账", "계산해 주세요", "Gyesanhae juseyo"),
    Entry("好吃！", "맛있어요!", "Masisseoyo!"),
    Entry("有推荐吗？", "추천해 주세요", "Chucheonhae juseyo"),
    Entry("还要点别的吗？", "더 주문하시겠어요?", "Deo jumunhasigesseoyo?"),
    Entry("这里有人坐吗？", "여기 앉아도 되요?", "Yeogi anjado doeyo?"),
    Entry("我预订了位置", "예약했어요", "Yeyakhaesseoyo"),
    Entry("可以打包吗？", "포장해 주세요", "Pojanghae juseyo"),
    Entry("我不吃...", "안 먹는 게 있어요", "An meonneun ge isseoyo"),
    Entry("太咸了", "너무 짜요", "Neumo jayoyo"),
    Entry("我想预订今晚7点的位置", "오늘 저녁 7시에 예약하고 싶어요", "Oneul jeonyeok 7sie yeyakago sipeoyo"),
    Entry("有2个人的位置吗？", "2명 자리 있나요?", "2myeong jari innayo?"),
    Entry("可以订靠窗的位置吗？", "창가 자리로 예약할 수 있나요?", "Changga jariro yeyakhal su innayo?"),
    Entry("请问电话号码是多少？", "전화번호 알려주세요", "Jeonhwabeo alryeojuseyo"),
    Entry("可以不要太辣吗？", "안 매운 걸로 해주세요", "An maeun geollo haejuseyo"),
    Entry("这是热的还是冰的？", "이거 뜨거운 거예요? 차가운 거예요?", "Igeo tteugeoun geoyeo? Chagaun geoyeo?"),
    Entry("可以加饭吗？", "밥 더 주실 수 있나요?", "Bap deo jusil su innayo?"),
    Entry("这个份量大吗？", "양 많나요?", "Yang manna yo?"),
    Entry("我对海鲜过敏", "해산물 알레르기 있어요", "Haesanmul allereugi isseoyo"),
    Entry("有清真食品吗？", "할랄 음식 있나요?", "Hallal eumsik innayo?"),
    Entry("我不吃牛肉", "소고기 안 먹어요", "Sogogi an meogeoyo"),
    Entry("可以不放蒜吗？", "마늘 빼주세요", "Manul ppaejuseyo"),
    Entry("可以分开付吗？", "따로 계산할 수 있나요?", "Ttaro gyesanhal su innayo?"),
    Entry("这里可以刷卡吗？", "카드 돼요?", "Kadeu dwaeyo?"),
    Entry("含税吗？", "세금 포함돼어 있나요?", "Segeom pohamdoeo innayo?"),
    Entry("要给小费吗？", "팁 주어야 하나요?", "Tip jueoya hanayo?"),
    Entry("这个菜太咸了", "반찬 너무 짜요", "Banchan neomu jayo"),
    Entry("等太久了", "너무 오래 기다렸어요", "Neomu orae gidaryeosseoyo"),
    Entry("菜里面有头发", "음식에 머리카락이 들어있어요", "Eumsige meorikaraki deureoissoyo"),
    Entry("服务真好", "서비스 좋아요", "Seobisu joayo")
  ]

  /** The texts of the shopping group, in catalog order (src/data/phraseLibrary.ts:313-530). */
  const ShoppingEntries: seq<Entry> := [
    Entry("可以试穿吗？", "입어봐도 되요?", "Ibeobwado doeyo?"),
    Entry("有折扣吗？", "할인되나요?", "Halindoeyo?"),
    Entry("我要买这个", "이거 살게요", "Igeo salgeyo"),
    Entry("这个颜色有别的吗？", "다른 색상 있나요?", "Dareun saeksaeng innayo?"),
    Entry("有更大的吗？", "더 큰 사이즈 있나요?", "Deo keun saijeu innayo?"),
    Entry("可以刷卡吗？", "카드 돼나요?", "Kadeu dwaenayo?"),
    Entry("能退款吗？", "환불돼나요?", "Hwanbuldwaaenayo?"),
    Entry("有发票吗？", "영수증 있나요?", "Yeongsujeung innayo?"),
    Entry("多少钱？", "얼마예요?", "Eolmayeyo?"),
    Entry("太贵了", "너무 비싸요", "Neomu bissayo"),
    Entry("可以便宜点吗？", "깎아 주세요", "Ggaka juseyo"),
    Entry("我要看看别的", "다른 거 볼게요", "Dareun geo bolgeyo"),
    Entry("这是真品吗？", "이거 정품이에요?", "Igeo jeongpumieyo?"),
    Entry("这是什么材质的？", "이게 어떤 재질이에요?", "Ige eotteon jaejirieyo?"),
    Entry("可以洗吗？", "세탁돼나요?", "Setakdwaenayo?"),
    Entry("有保修吗？", "보증 있나요?", "Bojeung innayo?"),
    Entry("什么时候到期？", "언제까지예요?", "Eonjekkajeyeyo?"),
    Entry("可以给个折扣吗？", "더 깎아 주실 수 있나요?", "Deo ggaka jusil su innayo?"),
    Entry("这是最低价吗？", "이게 제일 싼 거예요?", "Ige jeil ssan geoyeo?"),
    Entry("还有其他优惠吗？", "다른 혜택 없나요?", "Dareun hyeotaek eomnayo?"),
    Entry("买两个有折扣吗？", "2개 사면 할인돼요?", "2gae samyeon halindwaeyo?"),
    Entry("可以用优惠券吗？", "쿠폰 쓸 수 있나요?", "Kupon ssul su innayo?"),
    Entry("可以换货吗？", "교환할 수 있나요?", "Gyohwanhal su innayo?"),
    Entry("退换货期限是几天？", "교환 기간 며칠이에요?", "Gyohwan gigan myeochilieyo?"),
    Entry("我想退货", "반품하고 싶어요", "Banpumago sipeoyo"),
    Entry("可以换成别的颜色吗？", "다른 색으로 바꿀 수 있나요?", "Dareun saegeuro bakkwal su innayo?"),
    Entry("可以送货吗？", "배송해 주실 수 있나요?", "Baesonghae jusil su innayo?"),
    Entry("需要额外费用吗？", "추가 비용 드나요?", "Chuga biyong deunayo?"),
    Entry("可以送礼物包装吗？", "선물 포장해 주세요", "Seonmul pojanghae juseyo"),
    Entry("有会员卡吗？", "회원카드 있나요?", "Hoewonkadeu innayo?")
  ]

  /** The texts of the transportation group, in catalog order (src/data/phraseLibrary.ts:536-753). */
  const TransportationEntries: seq<Entry> := [
    Entry("请问地铁站在哪？", "지하철역 어디예요?", "Jihacheoryeog eidiyeyo?"),
    Entry("我要去...", "...에 가고 싶어요", "...e gago sipeoyo"),
    Entry("这是几号线？", "이거 몇 호선이에요?", "Igeo myeot hoseonieyo?"),
    Entry("到...需要多久？", "...까지 얼마나 걸려요?", "...kkaji eolmana geollyeoyo?"),
    Entry("在哪换乘？", "어디서 환승해요?", "Eodiseo hwanseunghaeyo?"),
    Entry("这是往...方向的车吗？", "이거 ...행이에요?", "Igeo ...haengieyo?"),
    Entry("请停车", "세워 주세요", "Sewo juseyo"),
    Entry("下一站是哪里？", "다음 역이 어디예요?", "Daeum yeogi eodiyeyo?"),
    Entry("去机场怎么走？", "공항怎么 가요?", "Gonghang-eotteon gayo?"),
    Entry("有地图吗？", "지도 있나요?", "Jido innayo?"),
    Entry("请问去...怎么走？", "...怎么 가는지 알려주세요", "...eotteon ganeunji alryeojuseyo"),
    Entry("这里在地图上的哪里？", "지도상에서 어디예요?", "Jidosangeseo eodiyeyo?"),
    Entry("我迷路了", "길 잃었어요", "Gil ireosseoyo"),
    Entry("这附近有...吗？", "이 근처에 ... 있나요?", "I geuncheoe ... innayo?"),
    Entry("往左还是往右？", "왼쪽이에요? 오른쪽이에요?", "Wenjog ieyo? Oreunjog ieyo?"),
    Entry("需要走多久？", "걸어서 얼마나 걸려요?", "Georeseo eolmana geollyeoyo?"),
    Entry("我要买一张票", "티켓 한 장 주세요", "Tiket han jang juseyo"),
    Entry("往返票多少钱？", "왕복 티켓 얼마예요?", "Wangbok tiket eolmayeyo?"),
    Entry("我要充值交通卡", "교통카드 충전해 주세요", "Gyotongkadeu chungchonhae juseyo"),
    Entry("这张票可以用几次？", "이 티켓 몇 번 쓸 수 있나요?", "I tiket myeot beon ssul su innayo?"),
    Entry("一天票多少钱？", "1일권 얼마예요?", "1ilgwon eolmayeyo?"),
    Entry("有公交吗？", "버스 있나요?", "Beoseu innayo?"),
    Entry("可以打车吗？", "택시 탈 수 있나요?", "Taeksi tal su innayo?"),
    Entry("坐地铁快还是打车快？", "지하철이 빨라요? 택시가 빨라요?", "Jihacheori ppallayo? Taeksiga ppallayo?"),
    Entry("需要换乘吗？", "환승해야 하나요?", "Hwanseunghaeya hanayo?"),
    Entry("我应该坐哪辆车？", "어떤 버스 타야 돼요?", "Eotteon beoseu taya dwaeyo?"),
    Entry("这班车到...吗？", "이 버스 ... 가요?", "I beoseu ... gayo?"),
    Entry("错过站了怎么办？", "역을 지나치면 어떻게 해요?", "Yeogeul jinachimyeon eotteoke haeyo?"),
    Entry("交通卡余额不足", "교통카드 잔액 부족해요", "Gyotongkadeu janeog bujokhaeyo"),
    Entry("在哪里充值？", "어디서 충전할 수 있나요?", "Eodiseo chungchonhal su innayo?")
  ]

  /** The texts of the emergency group, in catalog order (src/data/phraseLibrary.ts:759-941). */
  const EmergencyEntries: seq<Entry> := [
    Entry("救命！", "살려주세요!", "Sallyeojuseyo!"),
    Entry("请叫警察", "경찰 불러주세요", "Gyeongchal bulleojuseyo"),
    Entry("我迷路了", "길을 잃었어요", "Gireul ireosseoyo"),
    Entry("我丢钱包了", "지갑 잃어버렸어요", "Jigap ireobeoryeosseoyo"),
    Entry("去医院", "병원에 가주세요", "Byeongwone gajuseyo"),
    Entry("我受伤了", "다쳤어요", "Dachyeosseoyo"),
    Entry("请帮我", "도와주세요", "Dowajuseyo"),
    Entry("可以说中文吗？", "중국어 할 수 있나요?", "Junguggeo hal su innayo?"),
    Entry("叫救护车", "구급차 불러주세요", "Gupgeucha bulleojuseyo"),
    Entry("我肚子疼", "배가 아파요", "Bega apayo"),
    Entry("我头痛", "머리가 아파요", "Meoriga apayo"),
    Entry("我有心脏病", "심장병 있어요", "Simjangbyeong isseoyo"),
    Entry("我对...过敏", "...에 알레르기 있어요", "...e allereugi isseoyo"),
    Entry("我手机丢了", "휴대폰 잃어버렸어요", "Hyudaepon ireobeoryeosseoyo"),
    Entry("我护照丢了", "여권 잃어버렸어요", "Yeogwon ireobeoryeosseoyo"),
    Entry("行李丢了", "짐을 잃어버렸어요", "Jimeul ireobeoryeosseoyo"),
    Entry("在哪里可以报案？", "어디서 신고할 수 있나요?", "Eodiseo singohal su innayo?"),
    Entry("我被偷了", "도둑맞았어요", "Dodukmatasseoyo"),
    Entry("我被抢劫了", "강도를 당했어요", "Gangdoreul danghaesseoyo"),
    Entry("我要报警", "경찰에 신고할게요", "Gyeongchale singohalgeyo"),
    Entry("派出所怎么走？", "파출소 어떻게 가요?", "Pachulso eotteoke gayo?"),
    Entry("中国大使馆电话", "중국 대사관 전화번호", "Jungguk daesagwan jeonhwabeo"),
    Entry("需要翻译", "번역사 필요해요", "Beonyeoksa piryohaeyo"),
    Entry("着火了！", "불이야!", "Buriya!"),
    Entry("请快一点", "빨리 좀 해주세요", "Ppalli jom haejuseyo")
  ]

  /** The texts of the accommodation group, in catalog order (src/data/phraseLibrary.ts:947-1164). */
  const AccommodationEntries: seq<Entry> := [
    Entry("我预订了房间", "예약했어요", "Yeyakhaesseoyo"),
    Entry("几点早餐？", "아침 식사 몇 시예요?", "Achim sigsa myeot siyeyo?"),
    Entry("有WiFi吗？", "와이파이 있나요?", "Waipai innayo?"),
    Entry("几点退房？", "체크아웃 몇 시예요?", "Chekeuauteu myeot siyeyo?"),
    Entry("可以延迟退房吗？", "늦게 체크아웃할 수 있나요?", "Eutge chekeuauteul su innayo?"),
    Entry("有毛巾吗？", "수건 있나요?", "Sugeon innayo?"),
    Entry("空调坏了", "에어컨 고장 났어요", "Eokeo gojang nasseoyo"),
    Entry("房间很吵", "방이 시끄러워요", "Bangi sikkeureowoyo"),
    Entry("能换房间吗？", "방 바꿀 수 있나요?", "Bang bakkwal su innayo?"),
    Entry("有洗衣服务吗？", "세탁 서비스 있나요?", "Setak seobiseu innayo?"),
    Entry("我要办理入住", "체크인할게요", "Cheukeuinhageyo"),
    Entry("请给我房卡", "키주세요", "Ki juseyo"),
    Entry("需要押金吗？", "보증금 필요해요?", "Bojeumgeum piryohaeyo?"),
    Entry("房间在几楼？", "방이 몇 층이에요?", "Bangi myeot cheungieyo?"),
    Entry("电梯在哪里？", "엘리베이터 어디예요?", "Ellibeiteo eodiyeyo?"),
    Entry("我要退房", "체크아웃할게요", "Chekeuauteuhageyo"),
    Entry("账单请给我", "계산서 주세요", "Gyesanseo juseyo"),
    Entry("可以要更多毛巾吗？", "수건 더 주실 수 있나요?", "Sugeon deo jusil su innayo?"),
    Entry("有吹风机吗？", "드라이어 있나요?", "Deuraieo innayo?"),
    Entry("热水不热", "뜨거운 물 안 나와요", "Tteugeon mul an nawayo"),
    Entry("没电了", "전기 안 들어와요", "Jeonji an deureowayo"),
    Entry("WiFi密码是什么？", "와이파이 비밀번호 뭐예요?", "Waipai bimilbeonseo mwoyeyo?"),
    Entry("可以叫醒服务吗？", "모닝콜 해주세요", "Moningkol haejuseyo"),
    Entry("有叫餐服务吗？", "룸서비스 있나요?", "Roomseobiseu innayo?"),
    Entry("马桶坏了", "화장실 고장 났어요", "Hwangsiril gojang nasseoyo"),
    Entry("门锁不好用", "문 잠금 잘 안 돼요", "Mun jamgeum jal an dwaeyo"),
    Entry("房间不干净", "방이 더러워요", "Bangi deoreowoyo"),
    Entry("我想再住一晚", "하루 더 묵고 싶어요", "Haru deo mukgo sipeoyo"),
    Entry("有空房吗？", "빈 방 있나요?", "Bin bang innayo?"),
    Entry("可以寄存行李吗？", "짐 맡길 수 있나요?", "Jim matggil su innayo?")
  ]

  /** The texts of the greeting group, in catalog order (src/data/phraseLibrary.ts:1170-1352). */
  const GreetingEntries: seq<Entry> := [
    Entry("你好", "안녕하세요", "Annyeonghaseyo"),
    Entry("谢谢", "감사합니다", "Gamsahamnida"),
    Entry("对不起", "죄송합니다", "Joesonghamnida"),
    Entry("没关系", "괜찮아요", "Gwaenchanaeyo"),
    Entry("再见", "안녕히 가세요", "Annyeonghi gaseyo"),
    Entry("请问", "저기요", "Jeogiyo"),
    Entry("可以吗？", "돼나요?", "Dwaenayo?"),
    Entry("当然", "물론이에요", "Mullonieyo"),
    Entry("真的吗？", "정말이에요?", "Jeongmalieyo?"),
    Entry("不太明白", "잘 모르겠어요", "Jal moreugesseoyo"),
    Entry("早上好", "좋은 아침이에요", "Joeun achimieyo"),
    Entry("晚上好", "좋은 저녁이에요", "Joeun jeonyeogieyo"),
    Entry("晚安", "안녕히 주무세요", "Annyeonghi jumuseyo"),
    Entry("不好意思", "죄송해요", "Joesonghaeyo"),
    Entry("麻烦你了", "번거로워드려서 죄송해요", "Beongeoroweodyeureoseo joesonghaeyo"),
    Entry("请稍等", "잠시만요", "Jamsimanyo"),
    Entry("请慢用", "맛있게 드세요", "Masseoge deuseyo"),
    Entry("非常感谢", "대단히 감사합니다", "Daedanhi gamsahamnida"),
    Entry("没关系", "별말씀을요", "Byeomalsseumeulyo"),
    Entry("我明白了", "알겠습니다", "Algetseumnida"),
    Entry("没关系", "괜찮습니다", "Gwaenchamseumnida"),
    Entry("祝你今天愉快", "좋은 하루 보내세요", "Joeun haru bonaeseyo"),
    Entry("旅途愉快", "즐거운 여행 되세요", "Jeulgeoun yeohaeng doeseyo"),
    Entry("今天天气真好", "오늘 날씨 좋네요", "Oneul nalssi johneyo"),
    Entry("从哪里来？", "어디서 오셨어요?", "Eodiseo osyeosseoyo?")
  ]

  function EntriesOf(c: PhraseCategory): seq<Entry>
  {
    match c
    case Restaurant => RestaurantEntries
    case Shopping => ShoppingEntries
    case Transportation => TransportationEntries
    case Emergency => EmergencyEntries
    case Accommodation => AccommodationEntries
    case Greeting => GreetingEntries
  }

  /** The catalog grouped by category. */
  function PhrasesByCategory(c: PhraseCategory): seq<Phrase>
  {
    Group(c, EntriesOf(c))
  }

  /** The whole catalog: the six groups concatenated in category order. */
  const AllPhrases: seq<Phrase> :=
    PhrasesByCategory(Restaurant) + PhrasesByCategory(Shopping) + PhrasesByCategory(Transportation)
    + PhrasesByCategory(Emergency) + PhrasesByCategory(Accommodation) + PhrasesByCategory(Greeting)

  /** The statistics record: total entries, number of categories, per-category sizes. */
  const PhraseLibraryStats: LibraryStats :=
    LibraryStats(|AllPhrases|, |CategoryOrder|, c => |PhrasesByCategory(c)|)

  /** The position in AllPhrases at which a category's group starts. */
  function GroupOffset(c: PhraseCategory): nat
  {
    match c
    case Restaurant => 0
    case Shopping => 35
    case Transportation => 65
    case Emergency => 95
    case Accommodation => 120
    case Greeting => 150
  }

  /** Every group has exactly the size its metadata declares: 35/30/30/25/30/25. */
  lemma GroupSizesMatchMetadata(c: PhraseCategory)
    ensures |PhrasesByCategory(c)| == CategoryInfo(c).count
  {
  }

  /** Every entry of a group carries that group's tag and the id `<category>_NN` of its position. */
  lemma GroupEntriesTagged(c: PhraseCategory, entries: seq<Entry>, i: nat)
    requires |entries| < 99 && i < |entries|
    ensures Group(c, entries)[i].category == c
    ensures Group(c, entries)[i].id == IdFor(c, i + 1)
    ensures Group(c, entries)[i].zh == entries[i].zh && Group(c, entries)[i].ko == entries[i].ko
    ensures Group(c, entries)[i].romanization == entries[i].romanization
  {
  }

  /** The catalog holds 175 entries in 6 categories (not the 200+ its header comment announces). */
  lemma CatalogTotals()
    ensures |AllPhrases| == 175
    ensures PhraseLibraryStats.total == 175 && PhraseLibraryStats.categories == 6
    ensures forall c :: PhraseLibraryStats.breakdown(c) == CategoryInfo(c).count
  {
  }

  /** `all` is six groups of the declared sizes, concatenated in category order. */
  ghost predicate Laid(all: seq<Phrase>, groups: PhraseCategory -> seq<Phrase>)
  {
    && |groups(Restaurant)| == 35 && |groups(Shopping)| == 30 && |groups(Transportation)| == 30
    && |groups(Emergency)| == 25 && |groups(Accommodation)| == 30 && |groups(Greeting)| == 25
    && all == groups(Restaurant) + groups(Shopping) + groups(Transportation)
              + groups(Emergency) + groups(Accommodation) + groups(Greeting)
  }

  /** The catalog is laid out that way. */
  lemma CatalogLaid()
    ensures Laid(AllPhrases, PhrasesByCategory)
  {
    forall c | true
      ensures |PhrasesByCategory(c)| == CategoryInfo(c).count
    {
      GroupSizesMatchMetadata(c);
    }
  }

  /** In such a layout, position i falls in exactly one group c, at entry i - GroupOffset(c). */
  lemma LaidLocate(all: seq<Phrase>, groups: PhraseCategory -> seq<Phrase>, i: nat) returns (c: PhraseCategory, k: nat)
    requires Laid(all, groups) && i < |all|
    ensures k < |groups(c)| && i == GroupOffset(c) + k
    ensures all[i] == groups(c)[k]
  {
    var r, s, t, e, a, g := groups(Restaurant), groups(Shopping), groups(Transportation),
      groups(Emergency), groups(Accommodation), groups(Greeting);
    var rs := r + s;
    var rst := rs + t;
    var rste := rst + e;
    var rstea := rste + a;
    assert all == rstea + g;
    if i < 150 {
      assert all[i] == rstea[i];
      if i < 120 {
        assert rstea[i] == rste[i];
        if i < 95 {
          assert rste[i] == rst[i];
          if i < 65 {
            assert rst[i] == rs[i];
            if i < 35 {
              c, k := Restaurant, i;
            } else {
              c, k := Shopping, i - 35;
            }
          } else {
            c, k := Transportation, i - 65;
          }
        } else {
          c, k := Emergency, i - 95;
        }
      } else {
        c, k := Accommodation, i - 120;
      }
    } else {
      c, k := Greeting, i - 150;
    }
  }

  /** In such a layout, entry k of group c is at position GroupOffset(c) + k. */
  lemma LaidAt(all: seq<Phrase>, groups: PhraseCategory -> seq<Phrase>, c: PhraseCategory, k: nat)
    requires Laid(all, groups) && k < |groups(c)|
    ensures GroupOffset(c) + k < |all| && all[GroupOffset(c) + k] == groups(c)[k]
  {
    var c', k' := LaidLocate(all, groups, GroupOffset(c) + k);
  }

  /** Position i of the catalog is entry i - GroupOffset(c) of the group c it falls in. */
  lemma Locate(i: nat) returns (c: PhraseCategory, k: nat)
    requires i < |AllPhrases|
    ensures k < |EntriesOf(c)| && i == GroupOffset(c) + k
    ensures AllPhrases[i] == PhrasesByCategory(c)[k]
  {
    CatalogLaid();
    c, k := LaidLocate(AllPhrases, PhrasesByCategory, i);
  }

  lemma DecimalDigitInjective(d1: nat, d2: nat)
    requires d1 < 10 && d2 < 10 && DecimalDigit(d1) == DecimalDigit(d2)
    ensures d1 == d2
  {
  }

  /** Distinct (category, ordinal) pairs spell distinct ids. */
  lemma IdForInjective(c1: PhraseCategory, n1: nat, c2: PhraseCategory, n2: nat)
    requires n1 < 100 && n2 < 100 && IdFor(c1, n1) == IdFor(c2, n2)
    ensures c1 == c2 && n1 == n2
  {
    var id := IdFor(c1, n1);
    assert id[0] == CategoryKey(c1)[0];
    assert id[0] == CategoryKey(c2)[0];
    var m := |id|;
    assert id[m - 2] == DecimalDigit(n1 / 10) && id[m - 1] == DecimalDigit(n1 % 10);
    assert IdFor(c2, n2)[m - 2] == DecimalDigit(n2 / 10) && IdFor(c2, n2)[m - 1] == DecimalDigit(n2 % 10);
    DecimalDigitInjective(n1 / 10, n2 / 10);
    DecimalDigitInjective(n1 % 10, n2 % 10);
  }

  /** Every entry of every group carries the id of its position. */
  ghost predicate IdsByPosition(groups: PhraseCategory -> seq<Phrase>)
  {
    forall c, k :: 0 <= k < |groups(c)| && k < 99 ==> groups(c)[k].id == IdFor(c, k + 1)
  }

  /** In such a layout, ids by position make every id unique. */
  lemma LaidIdsUnique(all: seq<Phrase>, groups: PhraseCategory -> seq<Phrase>, i: nat, j: nat)
    requires Laid(all, groups) && IdsByPosition(groups) && i < j < |all|
    ensures all[i].id != all[j].id
  {
    var ci, ki := LaidLocate(all, groups, i);
    var cj, kj := LaidLocate(all, groups, j);
    if all[i].id == all[j].id {
      IdForInjective(ci, ki + 1, cj, kj + 1);
    }
  }

  lemma CatalogIdsByPosition()
    ensures IdsByPosition(PhrasesByCategory)
  {
    forall c, k | 0 <= k < |PhrasesByCategory(c)| && k < 99
      ensures PhrasesByCategory(c)[k].id == IdFor(c, k + 1)
    {
      GroupEntriesTagged(c, EntriesOf(c), k);
    }
  }

  /** No two catalog entries share an id. */
  lemma CatalogIdsUnique(i: nat, j: nat)
    requires i < j < |AllPhrases|
    ensures AllPhrases[i].id != AllPhrases[j].id
  {
    CatalogLaid();
    CatalogIdsByPosition();
    LaidIdsUnique(AllPhrases, PhrasesByCategory, i, j);
  }

  predicate TextsNonEmpty(es: seq<Entry>)
  {
    forall k :: 0 <= k < |es| ==> es[k].zh != [] && es[k].ko != [] && es[k].romanization != []
  }

  lemma RestaurantTextsNonEmpty()
    ensures TextsNonEmpty(RestaurantEntries)
  {
  }

  lemma ShoppingTextsNonEmpty()
    ensures TextsNonEmpty(ShoppingEntries)
  {
  }

  lemma TransportationTextsNonEmpty()
    ensures TextsNonEmpty(TransportationEntries)
  {
  }

  lemma EmergencyTextsNonEmpty()
    ensures TextsNonEmpty(EmergencyEntries)
  {
  }

  lemma AccommodationTextsNonEmpty()
    ensures TextsNonEmpty(AccommodationEntries)
  {
  }

  lemma GreetingTextsNonEmpty()
    ensures TextsNonEmpty(GreetingEntries)
  {
  }

  lemma GroupTextsNonEmpty(c: PhraseCategory)
    ensures TextsNonEmpty(EntriesOf(c))
  {
    match c
    case Restaurant => RestaurantTextsNonEmpty();
    case Shopping => ShoppingTextsNonEmpty();
    case Transportation => TransportationTextsNonEmpty();
    case Emergency => EmergencyTextsNonEmpty();
    case Accommodation => AccommodationTextsNonEmpty();
    case Greeting => GreetingTextsNonEmpty();
  }

  /** Every entry has non-empty Chinese, Korean and romanization texts. */
  lemma CatalogTextsNonEmpty(i: nat)
    requires i < |AllPhrases|
    ensures AllPhrases[i].zh != [] && AllPhrases[i].ko != [] && AllPhrases[i].romanization != []
  {
    var c, k := Locate(i);
    GroupTextsNonEmpty(c);
    GroupEntriesTagged(c, EntriesOf(c), k);
  }

  /** The catalog text of entry k of group c, located in the flattened catalog. */
  lemma CatalogEntryAt(i: nat, c: PhraseCategory, k: nat)
    requires k < |EntriesOf(c)| && i == GroupOffset(c) + k
    ensures i < |AllPhrases| && AllPhrases[i].zh == EntriesOf(c)[k].zh && AllPhrases[i].ko == EntriesOf(c)[k].ko
  {
    CatalogLaid();
    LaidAt(AllPhrases, PhrasesByCategory, c, k);
    GroupEntriesTagged(c, EntriesOf(c), k);
  }

  lemma LostTexts()
    ensures EntriesOf(Transportation)[12].zh == "我迷路了" && EntriesOf(Emergency)[2].zh == "我迷路了"
  {
  }

  lemma NeverMindTexts()
    ensures EntriesOf(Greeting)[3].zh == "没关系" && EntriesOf(Greeting)[18].zh == "没关系"
    ensures EntriesOf(Greeting)[20].zh == "没关系"
  {
  }

  lemma ReservedTexts()
    ensures EntriesOf(Restaurant)[11].ko == "예약했어요" && EntriesOf(Accommodation)[0].ko == "예약했어요"
  {
  }

  /** zh '我迷路了' occurs twice (transportation_13 and emergency_03), under distinct ids. */
  lemma DuplicateZhLost()
    ensures AllPhrases[77].zh == AllPhrases[97].zh == "我迷路了"
    ensures AllPhrases[77].id != AllPhrases[97].id
  {
    LostTexts();
    CatalogEntryAt(77, Transportation, 12);
    CatalogEntryAt(97, Emergency, 2);
    CatalogIdsUnique(77, 97);
  }

  /** zh '没关系' occurs three times in the greeting group (greeting_04, _19 and _21). */
  lemma DuplicateZhNeverMind()
    ensures AllPhrases[153].zh == AllPhrases[168].zh == AllPhrases[170].zh == "没关系"
  {
    NeverMindTexts();
    CatalogEntryAt(153, Greeting, 3);
    CatalogEntryAt(168, Greeting, 18);
    CatalogEntryAt(170, Greeting, 20);
  }

  /** ko '예약했어요' occurs twice (restaurant_12 and accommodation_01), under distinct ids. */
  lemma DuplicateKoReserved()
    ensures AllPhrases[11].ko == AllPhrases[120].ko == "예약했어요"
    ensures AllPhrases[11].id != AllPhrases[120].id
  {
    ReservedTexts();
    CatalogEntryAt(11, Restaurant, 11);
    CatalogEntryAt(120, Accommodation, 0);
    CatalogIdsUnique(11, 120);
  }
}
